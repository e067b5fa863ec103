/**
 What a check decides about a peer, said in the clock, the traffic statistics and the peer's own bookkeeping: a working
 path is left alone, a silent one is rotated or left, and a probe success opens the way off the relay.
 */
module PathSwitchDecisions {
  import opened Mesh
  import opened Optional
  import opened PathSwitch
  import opened PathSwitchProofs

  // ---------------------------------------------------------------- what is known of a peer

  ghost function Entry<K, V>(m: map<K, V>, k: K): Option<V> {
    if k in m then Some(m[k]) else None
  }

  /** All the daemon has noted of one peer. */
  datatype View = View(
    relayed: bool, relaySince: Option<Time>, directSince: Option<Time>, lastRx: Option<int>, rxProgress: Option<Time>,
    index: Option<nat>, attempts: Option<nat>, disco: Option<DiscoPeer>)

  ghost function ViewOf(s: State, key: Key): View {
    View(key in s.path.relayed, Entry(s.path.relaySince, key), Entry(s.path.directSince, key),
         Entry(s.path.lastRx, key), Entry(s.path.rxProgress, key),
         Entry(s.path.candidateIndex, key), Entry(s.path.candidateAttempts, key), Entry(s.probes.discoUpgrades, key))
  }

  ghost function OrZero(x: Option<int>): int { if x.Some? then x.value else 0 }

  // ----------------------------------------------------------------------------- evidence

  ghost function RxNow(p: Node, stats: Stats): int { if p.key in stats then stats[p.key].rx else 0 }

  ghost function HandshakeNow(p: Node, stats: Stats): Time {
    if p.key in stats then stats[p.key].latestHandshake else 0
  }

  /** A handshake at most three minutes old, and not from before the path was taken (one second of grace). */
  ghost predicate FreshHandshake(p: Node, stats: Stats, now: Time, since: Time) {
    var h := HandshakeNow(p, stats);
    h != 0 && now - h <= 180_000 && (since == 0 || h > since - 1_000)
  }

  /** When bytes were last seen to arrive, this check included; zero if never. */
  ghost function LastGrowth(v: View, p: Node, stats: Stats, now: Time): Time {
    if RxNow(p, stats) > OrZero(v.lastRx) then now else OrZero(v.rxProgress)
  }

  /** The peer is on trial on the direct path, for the endpoints it has now. */
  ghost predicate OnTrialNow(v: View, p: Node) {
    && v.disco.Some? && v.disco.value.directTrial
    && v.disco.value.fingerprint.candidates == p.candidates
    && v.disco.value.fingerprint.discoCandidates == p.discoCandidates
  }

  /** The direct path taken at since works: on trial it must beat the baselines, otherwise it must show life. */
  ghost predicate DirectAlive(v: View, p: Node, stats: Stats, now: Time, since: Time) {
    if OnTrialNow(v, p)
    then RxNow(p, stats) > v.disco.value.baselineRx || HandshakeNow(p, stats) > v.disco.value.baselineHandshake
    else
      var growth := LastGrowth(v, p, stats, now);
      FreshHandshake(p, stats, now, since) || (growth != 0 && growth > since && now - growth < 20_000)
  }

  /** The relay path works. */
  ghost predicate RelayAlive(v: View, p: Node, stats: Stats, now: Time) {
    var since, growth := OrZero(v.relaySince), LastGrowth(v, p, stats, now);
    FreshHandshake(p, stats, now, since) || (growth != 0 && (since == 0 || growth > since) && now - growth < 20_000)
  }

  // ---------------------------------------------------------------------------- decisions

  /** Paths of this peer are decided at all: online, reachable somewhere, and not a bystander of an exit server. */
  ghost predicate Considered(cfg: Config, net: NetView, p: Node) {
    && p.online && !cfg.forceRelay && p.rawEndpoints > 0
    && (net.servingExit ==> net.selfID != "" && p.selectedExitID == net.selfID)
  }

  ghost predicate SilentFor(cfg: Config, net: NetView, v: View, p: Node, stats: Stats, now: Time, most: Time) {
    && Considered(cfg, net, p) && !v.relayed && v.directSince.Some?
    && !DirectAlive(v, p, stats, now, v.directSince.value) && now - v.directSince.value > most
  }

  /** The next direct candidate is due. */
  ghost predicate Rotates(cfg: Config, net: NetView, v: View, p: Node, stats: Stats, now: Time) {
    && SilentFor(cfg, net, v, p, stats, now, 6_000) && |p.candidates| > 1
    && (!net.bridge || OrZero(v.attempts) < |p.candidates| - 1)
  }

  /** The relay is due: the direct path is silent and its candidates are used up. */
  ghost predicate FallsBack(cfg: Config, net: NetView, v: View, p: Node, stats: Stats, now: Time) {
    && SilentFor(cfg, net, v, p, stats, now, 15_000) && net.bridge
    && (|p.candidates| > 1 ==> OrZero(v.attempts) >= |p.candidates| - 1)
  }

  ghost predicate Gated(cfg: Config, net: NetView, p: Node) {
    cfg.enableDiscoProbe && !cfg.forceRelay && net.bridge && p.discoCandidates != []
  }

  /** An unused probe success of the last ten seconds, for the peer's endpoints and relay cycle. */
  ghost predicate HoldsPermit(v: View, p: Node, now: Time) {
    && v.disco.Some? && v.disco.value.fingerprint.candidates == p.candidates
    && v.disco.value.fingerprint.discoCandidates == p.discoCandidates
    && v.disco.value.relayCycle == OrZero(v.relaySince)
    && v.disco.value.permitAt != 0 && 0 <= now - v.disco.value.permitAt <= 10_000
  }

  /** A direct trial is due. */
  ghost predicate LeavesRelay(cfg: Config, net: NetView, v: View, p: Node, stats: Stats, now: Time) {
    && Considered(cfg, net, p) && v.relayed && !net.servingExit
    && p.name != net.preferredExit && net.preferredExit !in p.meshIPs
    && v.relaySince.Some? && now - v.relaySince.value > 300_000 && RelayAlive(v, p, stats, now)
    && (Gated(cfg, net, p) ==> p.key in stats && HoldsPermit(v, p, now))
  }

  /** The check of p did to it exactly what was due. */
  ghost predicate Decided(cfg: Config, net: NetView, v: View, w: View, p: Node, stats: Stats, now: Time) {
    && (w.relayed <==> FallsBack(cfg, net, v, p, stats, now) || (v.relayed && !LeavesRelay(cfg, net, v, p, stats, now)))
    && (if Rotates(cfg, net, v, p, stats, now)
        then w.index == Some((OrZero(v.index) + 1) % |p.candidates|) && w.attempts == Some(OrZero(v.attempts) + 1)
        else w.index == v.index && w.attempts == v.attempts)
    && (FallsBack(cfg, net, v, p, stats, now) ==> w.relaySince == Some(now))
    && (!FallsBack(cfg, net, v, p, stats, now) ==> w.relaySince == v.relaySince)
    && (Rotates(cfg, net, v, p, stats, now) || LeavesRelay(cfg, net, v, p, stats, now) ==> w.directSince == Some(now))
    && w.lastRx == Some(RxNow(p, stats))
  }

  /** What a check does to the trial of a peer it keeps, moves or gives up. */
  ghost predicate TrialDecided(cfg: Config, net: NetView, v: View, w: View, p: Node, stats: Stats, now: Time) {
    && (LeavesRelay(cfg, net, v, p, stats, now) && Gated(cfg, net, p) ==>
          && w.disco.Some? && w.disco.value.directTrial && w.disco.value.permitAt == 0
          && w.disco.value.baselineRx == RxNow(p, stats) && w.disco.value.baselineHandshake == HandshakeNow(p, stats))
    && (FallsBack(cfg, net, v, p, stats, now) && OnTrialNow(v, p) ==>
          && w.disco.Some? && !w.disco.value.directTrial && w.disco.value.permitAt == 0
          && w.disco.value.trialFailures == v.disco.value.trialFailures + 1
          && w.disco.value.nextProbe
             == now + (match v.disco.value.trialFailures case 0 => 600_000 case 1 => 1_200_000 case _ => 1_800_000))
    && (Considered(cfg, net, p) && !v.relayed && v.directSince.Some? && OnTrialNow(v, p)
        && DirectAlive(v, p, stats, now, v.directSince.value) ==>
          && w.disco.Some? && !w.disco.value.directTrial
          && w.disco.value.trialFailures == 0 && w.disco.value.nextProbe == 0)
  }

  /** The model's tests read the evidence as told above. */
  lemma SameEvidence(cfg: Config, s: State, p: Node, stats: Stats, now: Time)
    ensures var v, stat := ViewOf(s, p.key), StatOf(stats, p.key);
            var s1 := s.(path := NoteTraffic(s.path, p.key, stat.rx, now));
            && (forall since :: DirectHealthy(s1.(probes := DropStaleTrial(s.probes, p)), p, stat, since, now)
                                <==> DirectAlive(v, p, stats, now, since))
            && (RelayHealthy(s1.path, p.key, stat, now) <==> RelayAlive(v, p, stats, now))
            && (OnTrial(DropStaleTrial(s.probes, p), p) <==> OnTrialNow(v, p))
  {
  }

  /** What the three outcomes of the direct branch do to the peer. */
  lemma DirectOutcomes(s: State, p: Node, stat: PeerStat, now: Time)
    ensures p.candidates != [] ==>
              var v, w := ViewOf(s, p.key), ViewOf(Rotate(s, p, now), p.key);
              w == v.(index := Some((OrZero(v.index) + 1) % |p.candidates|), attempts := Some(OrZero(v.attempts) + 1),
                      directSince := Some(now), rxProgress := Some(0))
    ensures var v, w := ViewOf(s, p.key), ViewOf(FallBack(s, p, now), p.key);
            && w.(disco := v.disco) == v.(relayed := true, relaySince := Some(now), rxProgress := Some(0))
            && (OnTrialNow(v, p) ==> w.disco == Some(FailedTrial(v.disco.value, now)))
    ensures forall healthy ::
              var v, w := ViewOf(s, p.key), ViewOf(s.(probes := JudgeTrial(s, p, healthy)), p.key);
              && w.(disco := v.disco) == v
              && (OnTrialNow(v, p) ==> w.disco == if healthy then Some(ProvenTrial(v.disco.value)) else v.disco)
              && (!OnTrialNow(v, p) ==> !OnTrialNow(w, p))
  {
  }

  /** v2 is v once the traffic is noted and, on the direct path, the trial judged. */
  ghost predicate Noted(v: View, v2: View, p: Node, stats: Stats) {
    v2.(disco := v.disco, rxProgress := v.rxProgress, lastRx := v.lastRx) == v && v2.lastRx == Some(RxNow(p, stats))
  }

  /** What the direct branch does, in its three cases, to a peer whose direct path is being timed. */
  lemma TimedOutcome(cfg: Config, s: State, p: Node, stats: Stats, now: Time) returns (v2: View)
    requires p.key !in s.path.relayed && Considered(cfg, s.net, p) && p.key in s.path.directSince
    ensures var v, w := ViewOf(s, p.key), ViewOf(CheckPeer(cfg, s, p, stats, now), p.key);
            && Noted(v, v2, p, stats)
            && (OnTrialNow(v, p) ==>
                  v2.disco == if DirectAlive(v, p, stats, now, v.directSince.value)
                              then Some(ProvenTrial(v.disco.value)) else v.disco)
            && (if Rotates(cfg, s.net, v, p, stats, now)
                then w == v2.(index := Some((OrZero(v2.index) + 1) % |p.candidates|),
                              attempts := Some(OrZero(v2.attempts) + 1),
                              directSince := Some(now), rxProgress := Some(0))
                else if FallsBack(cfg, s.net, v, p, stats, now)
                then
                  && w.(disco := v2.disco) == v2.(relayed := true, relaySince := Some(now), rxProgress := Some(0))
                  && (OnTrialNow(v2, p) ==> w.disco == Some(FailedTrial(v2.disco.value, now)))
                else w == v2)
  {
    var stat, since := StatOf(stats, p.key), s.path.directSince[p.key];
    var s1 := s.(path := NoteTraffic(s.path, p.key, stat.rx, now));
    var healthy := DirectHealthy(s1.(probes := DropStaleTrial(s.probes, p)), p, stat, since, now);
    var s2 := s1.(probes := JudgeTrial(s1, p, healthy));
    v2 := ViewOf(s2, p.key);
    SameEvidence(cfg, s, p, stats, now);
    assert ViewOf(s1, p.key).disco == ViewOf(s, p.key).disco && Noted(ViewOf(s, p.key), ViewOf(s1, p.key), p, stats);
    DirectOutcomes(s1, p, stat, now);
    DirectOutcomes(s2, p, stat, now);
    CheckDirectIs(cfg, s, s1, s2, p, stats, now, since, healthy);
  }

  /** A peer that is not timed is only noted. */
  lemma UntimedOutcome(cfg: Config, s: State, p: Node, stats: Stats, now: Time)
    requires p.key !in s.path.relayed && !(Considered(cfg, s.net, p) && p.key in s.path.directSince)
    ensures var v, w := ViewOf(s, p.key), ViewOf(CheckPeer(cfg, s, p, stats, now), p.key);
            Noted(v, w.(directSince := v.directSince), p, stats)
  {
  }

  lemma CheckDecidesDirect(cfg: Config, s: State, p: Node, stats: Stats, now: Time)
    requires p.key !in s.path.relayed
    ensures var v, w := ViewOf(s, p.key), ViewOf(CheckPeer(cfg, s, p, stats, now), p.key);
            Decided(cfg, s.net, v, w, p, stats, now) && TrialDecided(cfg, s.net, v, w, p, stats, now)
  {
    if Considered(cfg, s.net, p) && p.key in s.path.directSince {
      var v2 := TimedOutcome(cfg, s, p, stats, now);
    } else {
      UntimedOutcome(cfg, s, p, stats, now);
    }
  }

  lemma CheckDirectIs(cfg: Config, s: State, s1: State, s2: State, p: Node, stats: Stats, now: Time, since: Time,
                      healthy: bool)
    requires p.key !in s.path.relayed && p.key in s.path.directSince && since == s.path.directSince[p.key]
    requires Considered(cfg, s.net, p)
    requires s1 == s.(path := NoteTraffic(s.path, p.key, StatOf(stats, p.key).rx, now))
    requires healthy == DirectHealthy(s1.(probes := DropStaleTrial(s.probes, p)), p, StatOf(stats, p.key), since, now)
    requires s2 == s1.(probes := JudgeTrial(s1, p, healthy))
    ensures var r, v := CheckPeer(cfg, s, p, stats, now), ViewOf(s, p.key);
            if Rotates(cfg, s.net, v, p, stats, now) then r == Rotate(s2, p, now)
            else if FallsBack(cfg, s.net, v, p, stats, now) then r == FallBack(s2, p, now)
            else r == s2
  {
    SameEvidence(cfg, s, p, stats, now);
  }

  lemma LeftIsDecided(cfg: Config, net: NetView, v: View, v2: View, w: View, p: Node, stats: Stats, now: Time)
    requires LeavesRelay(cfg, net, v, p, stats, now) && Noted(v, v2, p, stats)
    requires w.(disco := v2.disco) == v2.(relayed := false, directSince := Some(now), rxProgress := Some(0))
    requires Gated(cfg, net, p) ==>
               && w.disco.Some? && w.disco.value.directTrial && w.disco.value.permitAt == 0
               && w.disco.value.baselineRx == RxNow(p, stats)
               && w.disco.value.baselineHandshake == HandshakeNow(p, stats)
    ensures Decided(cfg, net, v, w, p, stats, now) && TrialDecided(cfg, net, v, w, p, stats, now)
  {
  }

  lemma KeptIsDecided(cfg: Config, net: NetView, v: View, w: View, p: Node, stats: Stats, now: Time)
    requires v.relayed && !LeavesRelay(cfg, net, v, p, stats, now)
    requires Noted(v, w.(directSince := v.directSince), p, stats)
    ensures Decided(cfg, net, v, w, p, stats, now) && TrialDecided(cfg, net, v, w, p, stats, now)
  {
  }

  /** What the relay branch does, in the two cases. */
  lemma RelayedOutcomes(cfg: Config, s: State, p: Node, stats: Stats, now: Time)
    requires p.key in s.path.relayed
    ensures var v, w := ViewOf(s, p.key), ViewOf(CheckPeer(cfg, s, p, stats, now), p.key);
            var v1 := ViewOf(s.(path := NoteTraffic(s.path, p.key, StatOf(stats, p.key).rx, now)), p.key);
            && Noted(v, v1, p, stats)
            && (if LeavesRelay(cfg, s.net, v, p, stats, now)
                then
                  && w.(disco := v1.disco) == v1.(relayed := false, directSince := Some(now), rxProgress := Some(0))
                  && (Gated(cfg, s.net, p) ==>
                        && w.disco.Some? && w.disco.value.directTrial && w.disco.value.permitAt == 0
                        && w.disco.value.baselineRx == RxNow(p, stats)
                        && w.disco.value.baselineHandshake == HandshakeNow(p, stats))
                else w.(disco := v1.disco, directSince := v1.directSince) == v1)
  {
    SameEvidence(cfg, s, p, stats, now);
  }

  lemma CheckDecidesRelayed(cfg: Config, s: State, p: Node, stats: Stats, now: Time)
    requires p.key in s.path.relayed
    ensures var v, w := ViewOf(s, p.key), ViewOf(CheckPeer(cfg, s, p, stats, now), p.key);
            Decided(cfg, s.net, v, w, p, stats, now) && TrialDecided(cfg, s.net, v, w, p, stats, now)
  {
    var v, w := ViewOf(s, p.key), ViewOf(CheckPeer(cfg, s, p, stats, now), p.key);
    var v1 := ViewOf(s.(path := NoteTraffic(s.path, p.key, StatOf(stats, p.key).rx, now)), p.key);
    RelayedOutcomes(cfg, s, p, stats, now);
    if LeavesRelay(cfg, s.net, v, p, stats, now) {
      LeftIsDecided(cfg, s.net, v, v1, w, p, stats, now);
    } else {
      KeptIsDecided(cfg, s.net, v, w, p, stats, now);
    }
  }

  // ----------------------------------------------------------------------- the whole check

  /** Nothing noted of the key differs. */
  ghost predicate SameFor(s: State, r: State, key: Key) { ViewOf(r, key) == ViewOf(s, key) && r.net == s.net }

  lemma TrialFrame(s: State, p: Node, healthy: bool, now: Time, key: Key)
    requires key != p.key
    ensures SameFor(s, s.(probes := JudgeTrial(s, p, healthy)), key)
    ensures SameFor(s, s.(probes := MarkFailed(s.probes, p, now)), key)
  {
  }

  lemma DirectFrame(s: State, p: Node, stat: PeerStat, now: Time, key: Key)
    requires key != p.key
    ensures SameFor(s, CheckDirect(s, p, stat, now), key)
  {
    if p.key in s.path.directSince {
      var since := s.path.directSince[p.key];
      var healthy := DirectHealthy(s.(probes := DropStaleTrial(s.probes, p)), p, stat, since, now);
      var s1 := s.(probes := JudgeTrial(s, p, healthy));
      TrialFrame(s, p, healthy, now, key);
      TrialFrame(s1, p, healthy, now, key);
      assert SameFor(s1, FallBack(s1, p, now), key);
      assert p.candidates != [] ==> SameFor(s1, Rotate(s1, p, now), key);
    }
  }

  lemma RelayFrame(cfg: Config, s: State, p: Node, stats: Stats, now: Time, key: Key)
    requires key != p.key
    ensures SameFor(s, CheckRelayed(cfg, s, p, stats, now), key)
  {
  }

  /** The check of one peer does not touch another. */
  lemma OthersUntouched(cfg: Config, s: State, p: Node, stats: Stats, now: Time, key: Key)
    requires key != p.key
    ensures SameFor(s, CheckPeer(cfg, s, p, stats, now), key)
  {
    var s1 := s.(path := NoteTraffic(s.path, p.key, StatOf(stats, p.key).rx, now));
    assert SameFor(s, s1, key);
    DirectFrame(s1, p, StatOf(stats, p.key), now, key);
    RelayFrame(cfg, s1, p, stats, now, key);
  }

  lemma {:induction false} NotYetChecked(cfg: Config, s: State, peers: seq<Node>, n: nat, stats: Stats, now: Time,
                                         key: Key, r: State)
    requires n <= |peers| && r == CheckFirst(cfg, s, peers, n, stats, now)
    requires forall j :: 0 <= j < n ==> peers[j].key != key
    ensures SameFor(s, r, key)
  {
    if n > 0 {
      var before := CheckFirst(cfg, s, peers, n - 1, stats, now);
      NotYetChecked(cfg, s, peers, n - 1, stats, now, key, before);
      OthersUntouched(cfg, before, peers[n - 1], stats, now, key);
    }
  }

  /** The state just before the peer's turn knows of it what the whole check started with, and ends with its turn. */
  lemma {:induction false} CheckedOnce(cfg: Config, s: State, peers: seq<Node>, n: nat, i: nat, stats: Stats, now: Time,
                                       r: State) returns (before: State)
    requires i < n <= |peers| && r == CheckFirst(cfg, s, peers, n, stats, now)
    requires forall j :: 0 <= j < n && j != i ==> peers[j].key != peers[i].key
    ensures SameFor(s, before, peers[i].key) && SameFor(CheckPeer(cfg, before, peers[i], stats, now), r, peers[i].key)
  {
    var last := CheckFirst(cfg, s, peers, n - 1, stats, now);
    if i == n - 1 {
      NotYetChecked(cfg, s, peers, n - 1, stats, now, peers[i].key, last);
      before := last;
    } else {
      before := CheckedOnce(cfg, s, peers, n - 1, i, stats, now, last);
      OthersUntouched(cfg, last, peers[n - 1], stats, now, peers[i].key);
    }
  }

  /** The peer is the only one of the netmap with its key. */
  ghost predicate Unique(net: NetView, p: Node) {
    exists i :: 0 <= i < |net.peers| && net.peers[i] == p
                && forall j :: 0 <= j < |net.peers| && j != i ==> net.peers[j].key != p.key
  }

  /** A check rotates, moves to the relay and moves off it exactly the peers that are due. */
  lemma CheckDecides(cfg: Config, s: State, p: Node, stats: Stats, now: Time)
    requires Unique(s.net, p)
    ensures var v, w := ViewOf(s, p.key), ViewOf(Step(cfg, s, Check(stats, now)), p.key);
            Decided(cfg, s.net, v, w, p, stats, now) && TrialDecided(cfg, s.net, v, w, p, stats, now)
  {
    var i :| 0 <= i < |s.net.peers| && s.net.peers[i] == p
             && forall j :: 0 <= j < |s.net.peers| && j != i ==> s.net.peers[j].key != p.key;
    var before := CheckedOnce(cfg, s, s.net.peers, |s.net.peers|, i, stats, now, Step(cfg, s, Check(stats, now)));
    if p.key in before.path.relayed {
      CheckDecidesRelayed(cfg, before, p, stats, now);
    } else {
      CheckDecidesDirect(cfg, before, p, stats, now);
    }
  }

  /** A direct path with a recent handshake or growing traffic is neither rotated nor left. */
  lemma WorkingDirectPathIsKept(cfg: Config, s: State, p: Node, stats: Stats, now: Time)
    requires Unique(s.net, p) && p.key !in s.path.relayed && p.key in s.path.directSince
    requires !(p.key in s.probes.discoUpgrades && s.probes.discoUpgrades[p.key].directTrial)
    requires var since := s.path.directSince[p.key];
             || (p.key in stats && stats[p.key].latestHandshake != 0 && now - stats[p.key].latestHandshake <= 180_000
                 && stats[p.key].latestHandshake > since - 1_000)
             || (p.key in s.path.rxProgress && 0 < s.path.rxProgress[p.key] <= now
                 && s.path.rxProgress[p.key] > since && now - s.path.rxProgress[p.key] < 20_000)
    ensures var r := Step(cfg, s, Check(stats, now));
            && p.key !in r.path.relayed
            && Entry(r.path.candidateIndex, p.key) == Entry(s.path.candidateIndex, p.key)
            && Entry(r.path.candidateAttempts, p.key) == Entry(s.path.candidateAttempts, p.key)
  {
    CheckDecides(cfg, s, p, stats, now);
  }

  /** A direct path silent for 15 seconds, its candidates used up, gives way to the relay if there is one. */
  lemma SilentDirectPathFallsBack(cfg: Config, s: State, p: Node, stats: Stats, now: Time)
    requires Unique(s.net, p) && p.key !in s.path.relayed && p.key in s.path.directSince && s.net.bridge
    requires p.online && !cfg.forceRelay && p.rawEndpoints > 0 && !s.net.servingExit
    requires now - s.path.directSince[p.key] > 15_000
    requires !DirectAlive(ViewOf(s, p.key), p, stats, now, s.path.directSince[p.key])
    requires |p.candidates| > 1 ==>
               p.key in s.path.candidateAttempts && s.path.candidateAttempts[p.key] >= |p.candidates| - 1
    ensures p.key in Step(cfg, s, Check(stats, now)).path.relayed
  {
    CheckDecides(cfg, s, p, stats, now);
  }

  // -------------------------------------------------------------------------------- probes

  /** A success for the peer as it is now gives it a permit; any other end of the probe leaves it without one. */
  lemma CompletionDecides(cfg: Config, s: State, p: Node, success: bool, at: Time)
    requires Unique(s.net, p) && p.key in s.probes.discoUpgrades
    ensures var d := s.probes.discoUpgrades[p.key];
            var a := Attempt(p.key, d.fingerprint, d.relayCycle, d.attemptID);
            var r := Step(cfg, s, Complete(a, success, at));
            var current := p.key in s.path.relayed && p.online && Gated(cfg, s.net, p) && !s.net.servingExit
                           && p.name != s.net.preferredExit && s.net.preferredExit !in p.meshIPs
                           && d.fingerprint == Fingerprint(p.candidates, p.discoCandidates)
                           && d.relayCycle == OrZero(Entry(s.path.relaySince, p.key));
            && p.key in r.probes.discoUpgrades && !r.probes.discoUpgrades[p.key].probing
            && r.probes.discoUpgrades[p.key].permitAt == (if current && success then at else 0)
            && r.probes.discoUpgrades[p.key].fingerprint == d.fingerprint
            && r.probes.discoUpgrades[p.key].relayCycle == d.relayCycle
            && r.path == s.path && r.net == s.net
            && (current ==> r.probes.discoUpgrades[p.key].nextProbe == at + 30_000)
  {
  }

  /** A probe success opens the way: a check within ten seconds that finds the relay working moves the peer. */
  lemma SuccessLeadsOffTheRelay(cfg: Config, s: State, p: Node, at: Time, stats: Stats, now: Time)
    requires Unique(s.net, p) && p.key in s.probes.discoUpgrades
    requires p.key in s.path.relayed && p.key in s.path.relaySince
    requires p.online && p.rawEndpoints > 0 && Gated(cfg, s.net, p) && !s.net.servingExit
    requires p.name != s.net.preferredExit && s.net.preferredExit !in p.meshIPs
    requires var d := s.probes.discoUpgrades[p.key];
             d.fingerprint == Fingerprint(p.candidates, p.discoCandidates) && d.relayCycle == s.path.relaySince[p.key]
    requires at != 0 && 0 <= now - at <= 10_000 && now - s.path.relaySince[p.key] > 300_000
    requires p.key in stats && RelayAlive(ViewOf(s, p.key), p, stats, now)
    ensures var d := s.probes.discoUpgrades[p.key];
            var r := Step(cfg, s, Complete(Attempt(p.key, d.fingerprint, d.relayCycle, d.attemptID), true, at));
            p.key !in Step(cfg, r, Check(stats, now)).path.relayed
  {
    var d := s.probes.discoUpgrades[p.key];
    var r := Step(cfg, s, Complete(Attempt(p.key, d.fingerprint, d.relayCycle, d.attemptID), true, at));
    CompletionDecides(cfg, s, p, true, at);
    CheckDecides(cfg, r, p, stats, now);
  }

  /** A probe of p is due: a slot is free, the relay works and has for five minutes, and no probe or permit is out. */
  ghost predicate ProbeWanted(cfg: Config, s: State, p: Node, stats: Stats, now: Time) {
    var v := ViewOf(s, p.key);
    && s.probes.discoProbesInFlight < 4 && v.relayed && p.online && Gated(cfg, s.net, p) && !s.net.servingExit
    && p.name != s.net.preferredExit && s.net.preferredExit !in p.meshIPs
    && v.relaySince.Some? && now - v.relaySince.value > 300_000
    && (FreshHandshake(p, stats, now, v.relaySince.value)
        || (var growth := OrZero(v.rxProgress); growth != 0 && growth > v.relaySince.value && now - growth < 20_000))
    && (v.disco.Some? && v.disco.value.fingerprint == Fingerprint(p.candidates, p.discoCandidates)
        && v.disco.value.relayCycle == v.relaySince.value ==>
          && !v.disco.value.probing && v.disco.value.nextProbe <= now
          && (v.disco.value.permitAt == 0 || now - v.disco.value.permitAt > 10_000))
  }

  /** One round of starting probes starts one exactly when it is wanted, under a new number. */
  lemma StartDecides(cfg: Config, s: State, p: Node, stats: Stats, now: Time)
    requires now > 0
    ensures var r := StartPeer(cfg, s, p, stats, now);
            if ProbeWanted(cfg, s, p, stats, now)
            then
              && p.key in r.probes.discoUpgrades
              && var d := r.probes.discoUpgrades[p.key];
                 && d.probing && d.attemptID == s.probes.discoProbeSequence + 1 == r.probes.discoProbeSequence
                 && d.permitAt == 0 && d.nextProbe == now + 30_000
                 && d.fingerprint == Fingerprint(p.candidates, p.discoCandidates)
                 && d.relayCycle == s.path.relaySince[p.key]
                 && r.trace.outstanding
                    == s.trace.outstanding + {Attempt(p.key, d.fingerprint, d.relayCycle, d.attemptID)}
                 && r.probes.discoProbesInFlight == s.probes.discoProbesInFlight + 1
            else r.trace == s.trace && r.probes.discoProbesInFlight == s.probes.discoProbesInFlight
                 && r.probes.discoProbeSequence == s.probes.discoProbeSequence
  {
    var d := EntryFor(s.probes.discoUpgrades, p, s.path.Cycle(p.key));
    assert ProbeWanted(cfg, s, p, stats, now) <==> ProbeDue(cfg, s, p, stats, now) && MayStart(d, now);
  }

  /** Another peer's round leaves this one alone, and takes at most one slot. */
  lemma StartFrame(cfg: Config, s: State, p: Node, stats: Stats, now: Time, key: Key)
    requires key != p.key
    ensures var r := StartPeer(cfg, s, p, stats, now);
            && SameFor(s, r, key) && r.path == s.path
            && s.probes.discoProbesInFlight <= r.probes.discoProbesInFlight <= s.probes.discoProbesInFlight + 1
            && s.trace.outstanding <= r.trace.outstanding
            && (forall a :: a in r.trace.outstanding - s.trace.outstanding ==> a.key != key)
  {
  }

  lemma {:induction false} NotYetStarted(cfg: Config, s: State, peers: seq<Node>, n: nat, stats: Stats, now: Time,
                                         key: Key, r: State)
    requires n <= |peers| && r == StartFirst(cfg, s, peers, n, stats, now)
    requires forall j :: 0 <= j < n ==> peers[j].key != key
    ensures SameFor(s, r, key) && r.probes.discoProbesInFlight <= s.probes.discoProbesInFlight + n
    ensures s.trace.outstanding <= r.trace.outstanding
    ensures forall a :: a in r.trace.outstanding - s.trace.outstanding ==> a.key != key
  {
    if n > 0 {
      var before := StartFirst(cfg, s, peers, n - 1, stats, now);
      NotYetStarted(cfg, s, peers, n - 1, stats, now, key, before);
      StartFrame(cfg, before, peers[n - 1], stats, now, key);
    }
  }

  /** A probe of the peer was started between s and r. */
  ghost predicate Probed(s: State, r: State, key: Key) {
    exists a :: a in r.trace.outstanding && a !in s.trace.outstanding && a.key == key
  }

  lemma {:induction false} StartedOnce(cfg: Config, s: State, peers: seq<Node>, n: nat, i: nat, stats: Stats, now: Time,
                                       r: State)
    requires i < n <= |peers| && r == StartFirst(cfg, s, peers, n, stats, now) && now > 0
    requires forall j :: 0 <= j < n && j != i ==> peers[j].key != peers[i].key
    requires s.probes.discoProbesInFlight + n <= 4 && NumbersGrow(s)
    ensures Probed(s, r, peers[i].key) <==> ProbeWanted(cfg, s, peers[i], stats, now)
    ensures ProbeWanted(cfg, s, peers[i], stats, now) ==>
              ViewOf(r, peers[i].key).disco.Some? && ViewOf(r, peers[i].key).disco.value.probing
    ensures s.trace.outstanding <= r.trace.outstanding
  {
    var last, p, key := StartFirst(cfg, s, peers, n - 1, stats, now), peers[i], peers[i].key;
    if i == n - 1 {
      NotYetStarted(cfg, s, peers, n - 1, stats, now, key, last);
      StartDecides(cfg, last, p, stats, now);
      SlotsAside(cfg, s, last, p, stats, now);
      NumbersStillGrow(cfg, s, peers, n - 1, stats, now, last);
    } else {
      StartedOnce(cfg, s, peers, n - 1, i, stats, now, last);
      StartFrame(cfg, last, peers[n - 1], stats, now, key);
    }
  }

  /** No attempt out has a number yet to be given. */
  ghost predicate NumbersGrow(s: State) {
    forall a :: a in s.trace.outstanding ==> a.attemptID <= s.probes.discoProbeSequence
  }

  lemma {:induction false} NumbersStillGrow(cfg: Config, s: State, peers: seq<Node>, n: nat, stats: Stats, now: Time,
                                            r: State)
    requires n <= |peers| && r == StartFirst(cfg, s, peers, n, stats, now) && NumbersGrow(s)
    ensures NumbersGrow(r)
  {
    if n > 0 {
      NumbersStillGrow(cfg, s, peers, n - 1, stats, now, StartFirst(cfg, s, peers, n - 1, stats, now));
    }
  }

  lemma SlotsAside(cfg: Config, s: State, r: State, p: Node, stats: Stats, now: Time)
    requires SameFor(s, r, p.key) && s.probes.discoProbesInFlight < 4 && r.probes.discoProbesInFlight < 4
    ensures ProbeWanted(cfg, s, p, stats, now) <==> ProbeWanted(cfg, r, p, stats, now)
  {
  }

  /** With slots for all, starting the due probes probes exactly the peers that want it. */
  lemma StartProbesTheDue(cfg: Config, ops: seq<Op>, s: State, p: Node, stats: Stats, now: Time)
    requires Reaches(cfg, ops, s) && Unique(s.net, p) && now > 0
    requires s.probes.discoProbesInFlight + |s.net.peers| <= 4
    ensures Probed(s, Step(cfg, s, Start(stats, now)), p.key) <==> ProbeWanted(cfg, s, p, stats, now)
  {
    RunKeepsInv(cfg, ops, s);
    var i :| 0 <= i < |s.net.peers| && s.net.peers[i] == p
             && forall j :: 0 <= j < |s.net.peers| && j != i ==> s.net.peers[j].key != p.key;
    StartedOnce(cfg, s, s.net.peers, |s.net.peers|, i, stats, now,
                StartFirst(cfg, s, s.net.peers, |s.net.peers|, stats, now));
  }

  /** Starting probes forgets exactly the peers that left the netmap and have no probe out. */
  lemma AbsentPeersAreForgotten(b: ProbeBook, present: set<Key>, key: Key)
    ensures Entry(Prune(b, present).discoUpgrades, key)
         == if key in present || (key in b.discoUpgrades && b.discoUpgrades[key].probing)
            then Entry(b.discoUpgrades, key) else None
  {
  }
}
