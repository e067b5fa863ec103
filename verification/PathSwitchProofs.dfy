/**
 What every run of the path switch keeps: the probe bookkeeping is exact, a gated move to
 the direct path is backed by its own recent probe success, and a peer falls back to the
 relay only after all its direct candidates had their turn.
 */
module PathSwitchProofs {
  import opened Mesh
  import opened PathSwitch

  // ------------------------------------------------------------------------ runs

  /** One locked section of the daemon, or a change of what it is told from outside. */
  datatype Op =
    | Check(stats: Stats, now: Time)
    | Start(stats: Stats, now: Time)
    | Complete(attempt: Attempt, success: bool, now: Time)
    | CommitOp(peers: seq<Node>, programmed: set<Key>, selfID: string, servingExit: bool)
    | SetBridge(up: bool)
    | SetPreferredExit(nameOrIP: string)

  /** A background probe completes once, and only if it was started. */
  ghost predicate Enabled(s: State, op: Op) {
    op.Complete? ==> op.attempt in s.trace.outstanding
  }

  ghost function Step(cfg: Config, s: State, op: Op): State {
    match op
    case Check(stats, now) => CheckFirst(cfg, s, s.net.peers, |s.net.peers|, stats, now)
    case Start(stats, now) => StartDue(cfg, s, stats, now)
    case Complete(attempt, success, now) => Finish(cfg, s, attempt, success, now)
    case CommitOp(peers, programmed, selfID, servingExit) => Commit(s, peers, programmed, selfID, servingExit)
    case SetBridge(up) => s.(net := s.net.(bridge := up))
    case SetPreferredExit(nameOrIP) => s.(net := s.net.(preferredExit := nameOrIP))
  }

  /** s is reached by performing ops, in order, from the initial state. */
  ghost predicate Reaches(cfg: Config, ops: seq<Op>, s: State) {
    if ops == [] then s == InitialState()
    else
      var n := |ops| - 1;
      exists before :: Reaches(cfg, ops[..n], before) && Enabled(before, ops[n]) && s == Step(cfg, before, ops[n])
  }

  // --------------------------------------------------------- the probe invariant

  ghost function AttemptOf(key: Key, d: DiscoPeer): Attempt {
    Attempt(key, d.fingerprint, d.relayCycle, d.attemptID)
  }

  ghost predicate Succeeded(log: seq<Event>, a: Attempt, at: Time) {
    exists i :: 0 <= i < |log| && log[i] == ProbeSucceeded(a, at)
  }

  /** No gated move was made on this attempt. */
  ghost predicate Unused(log: seq<Event>, id: nat) {
    forall j :: 0 <= j < |log| && log[j].MovedToDirect? && log[j].gated ==> log[j].permit != id
  }

  ghost predicate EntryOK(relayed: set<Key>, sequence: nat, tr: Trace, key: Key, d: DiscoPeer) {
    && d.attemptID <= sequence
    && (d.probing ==> AttemptOf(key, d) in tr.outstanding && d.permitAt == ZERO_TIME)
    && (d.directTrial ==> !d.probing && key !in relayed && d.permitAt == ZERO_TIME)
    && (d.permitAt != ZERO_TIME ==> Succeeded(tr.log, AttemptOf(key, d), d.permitAt) && Unused(tr.log, d.attemptID))
  }

  ghost predicate EntriesOK(relayed: set<Key>, b: ProbeBook, tr: Trace) {
    forall key :: key in b.discoUpgrades ==> EntryOK(relayed, b.discoProbeSequence, tr, key, b.discoUpgrades[key])
  }

  /** The counter is the number of probes out, ids are never reused, finished ids are not out any more. */
  ghost predicate AttemptsOK(b: ProbeBook, tr: Trace) {
    && b.discoProbesInFlight == |tr.outstanding| <= MAX_DISCO_PROBES
    && (forall a :: a in tr.outstanding ==> a.attemptID <= b.discoProbeSequence)
    && (forall a, c :: a in tr.outstanding && c in tr.outstanding && a.attemptID == c.attemptID ==> a == c)
    && (forall i :: 0 <= i < |tr.log| && tr.log[i].ProbeSucceeded? ==>
          tr.log[i].attempt.attemptID <= b.discoProbeSequence)
    && (forall i, a :: 0 <= i < |tr.log| && tr.log[i].ProbeSucceeded? && a in tr.outstanding ==>
          tr.log[i].attempt.attemptID != a.attemptID)
  }

  /** log[i] is a success for the peer as it was when log[j] moved it, at most ten seconds before. */
  ghost predicate Authorises(log: seq<Event>, i: nat, j: nat)
    requires j < |log| && log[j].MovedToDirect?
  {
    && i < j && log[i].ProbeSucceeded?
    && log[i].attempt == Attempt(log[j].key, log[j].fingerprint, log[j].relayCycle, log[j].permit)
    && 0 <= log[j].at - log[i].at <= DISCO_PERMIT_LIFETIME
  }

  ghost predicate GatedMove(log: seq<Event>, j: nat) {
    j < |log| && log[j].MovedToDirect? && log[j].gated
  }

  /** Every gated move has its own recent success; no success serves two moves. */
  ghost predicate MovesOK(log: seq<Event>) {
    && (forall j: nat :: GatedMove(log, j) ==> exists i: nat :: Authorises(log, i, j))
    && (forall j: nat, k: nat :: j < k && GatedMove(log, j) && GatedMove(log, k) ==> log[j].permit != log[k].permit)
    && (forall i, k :: 0 <= i < k < |log| && log[i].ProbeSucceeded? && log[k].ProbeSucceeded? ==>
          log[i].attempt.attemptID != log[k].attempt.attemptID)
  }

  ghost predicate Inv(s: State) {
    EntriesOK(s.path.relayed, s.probes, s.trace) && AttemptsOK(s.probes, s.trace) && MovesOK(s.trace.log)
  }

  // -------------------------------------------------- what one step does to it

  /** Growing the log by an event that is no gated move keeps successes, unused permits and backed moves. */
  lemma GrowKeeps(log: seq<Event>, e: Event)
    requires !(e.MovedToDirect? && e.gated)
    ensures forall a, at :: Succeeded(log, a, at) ==> Succeeded(log + [e], a, at)
    ensures forall id :: Unused(log, id) ==> Unused(log + [e], id)
  {
    forall a, at | Succeeded(log, a, at) ensures Succeeded(log + [e], a, at) {
      var i :| 0 <= i < |log| && log[i] == ProbeSucceeded(a, at);
      assert (log + [e])[i] == log[i];
    }
  }

  lemma GrowKeepsMoves(log: seq<Event>, e: Event)
    requires MovesOK(log) && !(e.MovedToDirect? && e.gated)
    requires e.ProbeSucceeded? ==> forall i :: 0 <= i < |log| && log[i].ProbeSucceeded? ==>
                                     log[i].attempt.attemptID != e.attempt.attemptID
    ensures MovesOK(log + [e])
  {
    var longer := log + [e];
    forall j: nat | GatedMove(longer, j) ensures exists i: nat :: Authorises(longer, i, j) {
      assert GatedMove(log, j);
      var i: nat :| Authorises(log, i, j);
      assert Authorises(longer, i, j);
    }
    forall j: nat, k: nat | j < k && GatedMove(longer, j) && GatedMove(longer, k)
      ensures longer[j].permit != longer[k].permit
    {
      assert GatedMove(log, j) && GatedMove(log, k);
    }
  }

  /** An event that is neither a success nor a gated move changes nothing that matters. */
  lemma PlainEventKeepsInv(s: State, e: Event)
    requires Inv(s) && !e.ProbeSucceeded? && !(e.MovedToDirect? && e.gated)
    ensures Inv(s.(trace := s.trace.Note(e)))
  {
    GrowKeeps(s.trace.log, e);
    GrowKeepsMoves(s.trace.log, e);
    forall key | key in s.probes.discoUpgrades
      ensures EntryOK(s.path.relayed, s.probes.discoProbeSequence, s.trace.Note(e), key, s.probes.discoUpgrades[key])
    {
      assert EntryOK(s.path.relayed, s.probes.discoProbeSequence, s.trace, key, s.probes.discoUpgrades[key]);
    }
  }

  /** The invariant does not read the rest of the path bookkeeping. */
  lemma PathKeepsInv(s: State, path: PathBook)
    requires Inv(s) && path.relayed <= s.path.relayed
    ensures Inv(s.(path := path))
  {
    forall key | key in s.probes.discoUpgrades
      ensures EntryOK(path.relayed, s.probes.discoProbeSequence, s.trace, key, s.probes.discoUpgrades[key])
    {
      assert EntryOK(s.path.relayed, s.probes.discoProbeSequence, s.trace, key, s.probes.discoUpgrades[key]);
    }
  }

  /** The entry the protocol works on is as good as the one it replaces. */
  lemma EntryForIsOK(s: State, p: Node)
    requires Inv(s)
    ensures EntryOK(s.path.relayed, s.probes.discoProbeSequence, s.trace, p.key,
                    EntryFor(s.probes.discoUpgrades, p, s.path.Cycle(p.key)))
  {
  }

  /** Falling back ends any trial before the peer counts as relayed. */
  lemma FallBackKeepsInv(s: State, p: Node, now: Time)
    requires Inv(s)
    ensures Inv(FallBack(s, p, now))
  {
    var s2 := s.(probes := MarkFailed(s.probes, p, now));
    assert Inv(s2);
    var s3 := s2.(path := FallBack(s, p, now).path);
    assert !OnTrial(s2.probes, p);
    forall key | key in s3.probes.discoUpgrades
      ensures EntryOK(s3.path.relayed, s3.probes.discoProbeSequence, s3.trace, key, s3.probes.discoUpgrades[key])
    {
      assert EntryOK(s2.path.relayed, s2.probes.discoProbeSequence, s2.trace, key, s2.probes.discoUpgrades[key]);
    }
    PlainEventKeepsInv(s3, MovedToRelay(p.key, |p.candidates|, now));
  }

  lemma RotateKeepsInv(s: State, p: Node, now: Time)
    requires Inv(s) && p.candidates != []
    ensures Inv(Rotate(s, p, now))
  {
    var r := Rotate(s, p, now);
    PathKeepsInv(s, r.path);
    PlainEventKeepsInv(s.(path := r.path), CandidateSelected(p.key, NextIndex(s.path, p)));
  }

  lemma CheckDirectKeepsInv(s: State, p: Node, stat: PeerStat, now: Time)
    requires Inv(s)
    ensures Inv(CheckDirect(s, p, stat, now))
  {
    if p.key !in s.path.directSince {
      PathKeepsInv(s, s.path.(directSince := s.path.directSince[p.key := now]));
    } else {
      var since := s.path.directSince[p.key];
      var healthy := DirectHealthy(s.(probes := DropStaleTrial(s.probes, p)), p, stat, since, now);
      var s1 := s.(probes := JudgeTrial(s, p, healthy));
      if !healthy && |p.candidates| > 1 && now - since > CANDIDATE_TRIAL_AFTER && CandidateAvailable(s, p) {
        RotateKeepsInv(s1, p, now);
      } else if s.net.bridge && !healthy && now - since > RELAY_FALLBACK_AFTER {
        FallBackKeepsInv(s1, p, now);
      }
    }
  }

  /** A gated move on an unused success keeps every move backed by its own success. */
  lemma {:induction false} GatedMoveKeepsMoves(log: seq<Event>, a: Attempt, at: Time, now: Time)
    requires MovesOK(log) && Succeeded(log, a, at) && Unused(log, a.attemptID)
    requires 0 <= now - at <= DISCO_PERMIT_LIFETIME
    ensures MovesOK(log + [MovedToDirect(a.key, a.fingerprint, a.relayCycle, now, true, a.attemptID)])
  {
    var longer := log + [MovedToDirect(a.key, a.fingerprint, a.relayCycle, now, true, a.attemptID)];
    forall j: nat | GatedMove(longer, j) ensures exists i: nat :: Authorises(longer, i, j) {
      if j < |log| {
        assert GatedMove(log, j);
        var i: nat :| Authorises(log, i, j);
        assert Authorises(longer, i, j);
      } else {
        var i :| 0 <= i < |log| && log[i] == ProbeSucceeded(a, at);
        assert Authorises(longer, i, j);
      }
    }
    forall j: nat, k: nat | j < k && GatedMove(longer, j) && GatedMove(longer, k)
      ensures longer[j].permit != longer[k].permit
    {
      assert GatedMove(log, j);
      if k < |log| { assert GatedMove(log, k); }
    }
  }

  /** Consuming a usable permit and moving: the permit is gone, the move is backed by it. */
  lemma PermitMoveKeepsInv(s: State, p: Node, stat: PeerStat, now: Time)
    requires Inv(s)
    requires PermitUsable(EntryFor(s.probes.discoUpgrades, p, s.path.Cycle(p.key)), now)
    ensures var d := EntryFor(s.probes.discoUpgrades, p, s.path.Cycle(p.key));
            Inv(MoveToDirect(s.(probes := Consume(s.probes, p, s.path.Cycle(p.key), stat, now)), p, now, true,
                             d.attemptID))
  {
    var d := EntryFor(s.probes.discoUpgrades, p, s.path.Cycle(p.key));
    EntryForIsOK(s, p);
    var r := MoveToDirect(s.(probes := Consume(s.probes, p, s.path.Cycle(p.key), stat, now)), p, now, true,
                          d.attemptID);
    var log := s.trace.log;
    GatedMoveKeepsMoves(log, AttemptOf(p.key, d), d.permitAt, now);
    forall key | key in r.probes.discoUpgrades
      ensures EntryOK(r.path.relayed, r.probes.discoProbeSequence, r.trace, key, r.probes.discoUpgrades[key])
    {
      if key != p.key {
        var other := s.probes.discoUpgrades[key];
        assert EntryOK(s.path.relayed, s.probes.discoProbeSequence, s.trace, key, other);
        if other.permitAt != ZERO_TIME {
          OtherPermitSurvives(log, AttemptOf(p.key, d), d.permitAt, AttemptOf(key, other), other.permitAt, now);
        }
      }
    }
  }

  /** Two unused permits come from two different successes, so using one leaves the other unused. */
  lemma OtherPermitSurvives(log: seq<Event>, used: Attempt, usedAt: Time, other: Attempt, otherAt: Time, now: Time)
    requires MovesOK(log) && Succeeded(log, used, usedAt) && Succeeded(log, other, otherAt)
    requires used.key != other.key && Unused(log, other.attemptID)
    ensures var longer := log + [MovedToDirect(used.key, used.fingerprint, used.relayCycle, now, true, used.attemptID)];
            Succeeded(longer, other, otherAt) && Unused(longer, other.attemptID)
  {
    var longer := log + [MovedToDirect(used.key, used.fingerprint, used.relayCycle, now, true, used.attemptID)];
    var i :| 0 <= i < |log| && log[i] == ProbeSucceeded(used, usedAt);
    var k :| 0 <= k < |log| && log[k] == ProbeSucceeded(other, otherAt);
    assert used.attemptID != other.attemptID;
    assert longer[k] == log[k];
  }

  lemma CheckRelayedKeepsInv(cfg: Config, s: State, p: Node, stats: Stats, now: Time)
    requires Inv(s)
    ensures Inv(CheckRelayed(cfg, s, p, stats, now))
  {
    var stat := StatOf(stats, p.key);
    var d := EntryFor(s.probes.discoUpgrades, p, s.path.Cycle(p.key));
    if UpgradeDue(s, p, stat, now) {
      if !GateEnabled(cfg, s.net.bridge, p) {
        var r := MoveToDirect(s, p, now, false, 0);
        PathKeepsInv(s, r.path);
        PlainEventKeepsInv(s.(path := r.path), r.trace.log[|s.trace.log|]);
      } else if p.key in stats {
        if PermitUsable(d, now) {
          PermitMoveKeepsInv(s, p, stat, now);
        } else {
          EntryForIsOK(s, p);
        }
      }
    }
  }

  lemma CheckPeerKeepsInv(cfg: Config, s: State, p: Node, stats: Stats, now: Time)
    requires Inv(s)
    ensures Inv(CheckPeer(cfg, s, p, stats, now))
  {
    var stat := StatOf(stats, p.key);
    var s1 := s.(path := NoteTraffic(s.path, p.key, stat.rx, now));
    PathKeepsInv(s, s1.path);
    PathKeepsInv(s1, s1.path.(directSince := s1.path.directSince[p.key := now]));
    CheckDirectKeepsInv(s1, p, stat, now);
    CheckRelayedKeepsInv(cfg, s1, p, stats, now);
  }

  lemma {:induction false} CheckFirstKeepsInv(cfg: Config, s: State, peers: seq<Node>, n: nat, stats: Stats, now: Time,
                                              r: State)
    requires Inv(s) && n <= |peers| && r == CheckFirst(cfg, s, peers, n, stats, now)
    ensures Inv(r)
  {
    if n > 0 {
      var before := CheckFirst(cfg, s, peers, n - 1, stats, now);
      CheckFirstKeepsInv(cfg, s, peers, n - 1, stats, now, before);
      CheckPeerKeepsInv(cfg, before, peers[n - 1], stats, now);
    }
  }

  /** Starting a probe takes a fresh id, an open slot, and clears the old permit. */
  lemma StartPeerKeepsInv(cfg: Config, s: State, p: Node, stats: Stats, now: Time)
    requires Inv(s)
    ensures Inv(StartPeer(cfg, s, p, stats, now))
  {
    if ProbeDue(cfg, s, p, stats, now) {
      var d := EntryFor(s.probes.discoUpgrades, p, s.path.Cycle(p.key));
      EntryForIsOK(s, p);
      if MayStart(d, now) {
        var r := StartPeer(cfg, s, p, stats, now);
        var started := Attempt(p.key, d.fingerprint, d.relayCycle, s.probes.discoProbeSequence + 1);
        assert started !in s.trace.outstanding;
        assert |r.trace.outstanding| == |s.trace.outstanding| + 1;
        forall key | key in r.probes.discoUpgrades
          ensures EntryOK(r.path.relayed, r.probes.discoProbeSequence, r.trace, key, r.probes.discoUpgrades[key])
        {
          if key != p.key {
            assert EntryOK(s.path.relayed, s.probes.discoProbeSequence, s.trace, key, s.probes.discoUpgrades[key]);
          }
        }
      }
    }
  }

  lemma {:induction false} StartFirstKeepsInv(cfg: Config, s: State, peers: seq<Node>, n: nat, stats: Stats, now: Time)
    requires Inv(s) && n <= |peers|
    ensures Inv(StartFirst(cfg, s, peers, n, stats, now))
  {
    if n > 0 {
      StartFirstKeepsInv(cfg, s, peers, n - 1, stats, now);
      StartPeerKeepsInv(cfg, StartFirst(cfg, s, peers, n - 1, stats, now), peers[n - 1], stats, now);
    }
  }

  /** The success of an attempt still out is new, and no move was made on it. */
  lemma FreshSuccess(b: ProbeBook, tr: Trace, a: Attempt, at: Time)
    requires AttemptsOK(b, tr) && MovesOK(tr.log) && a in tr.outstanding
    ensures MovesOK(tr.log + [ProbeSucceeded(a, at)])
    ensures Unused(tr.log, a.attemptID)
  {
    var log := tr.log;
    GrowKeepsMoves(log, ProbeSucceeded(a, at));
    forall j | 0 <= j < |log| && log[j].MovedToDirect? && log[j].gated ensures log[j].permit != a.attemptID {
      assert GatedMove(log, j);
      var i: nat :| Authorises(log, i, j);
    }
  }

  /** Only the attempt's own entry could have lost its outstanding probe, and that entry is settled. */
  lemma SettledEntries(cfg: Config, s: State, a: Attempt, success: bool, now: Time, key: Key)
    requires Inv(s) && a in s.trace.outstanding && key in s.probes.discoUpgrades
    requires Unused(s.trace.log, a.attemptID)
    ensures var r := Finish(cfg, s, a, success, now);
            EntryOK(r.path.relayed, r.probes.discoProbeSequence, r.trace, key, r.probes.discoUpgrades[key])
  {
    var r := Finish(cfg, s, a, success, now);
    var d := s.probes.discoUpgrades[key];
    assert EntryOK(s.path.relayed, s.probes.discoProbeSequence, s.trace, key, d);
    if success {
      GrowKeeps(s.trace.log, ProbeSucceeded(a, now));
      assert r.trace.log[|s.trace.log|] == ProbeSucceeded(a, now);
      assert Succeeded(r.trace.log, a, now);
    }
    if d.probing && AttemptOf(key, d) == a {
      assert key == a.key && Answers(s.probes, a);
    }
  }

  lemma FinishKeepsInv(cfg: Config, s: State, a: Attempt, success: bool, now: Time)
    requires Inv(s) && a in s.trace.outstanding
    ensures Inv(Finish(cfg, s, a, success, now))
  {
    FreshSuccess(s.probes, s.trace, a, now);
    forall key | key in s.probes.discoUpgrades
      ensures var r := Finish(cfg, s, a, success, now);
              EntryOK(r.path.relayed, r.probes.discoProbeSequence, r.trace, key, r.probes.discoUpgrades[key])
    {
      SettledEntries(cfg, s, a, success, now, key);
    }
  }

  lemma {:induction false} CommitFirstKeepsInv(s: State, seen: map<Key, seq<string>>, peers: seq<Node>,
                                               programmed: set<Key>, n: nat)
    requires Inv(s) && n <= |peers|
    ensures Inv(CommitFirst(s, seen, peers, programmed, n))
  {
    if n > 0 {
      CommitFirstKeepsInv(s, seen, peers, programmed, n - 1);
      var s1, p := CommitFirst(s, seen, peers, programmed, n - 1), peers[n - 1];
      var r := ResetPeer(s1, p.key, p.candidates);
      PathKeepsInv(s1, r.path);
      PlainEventKeepsInv(s1.(path := r.path), EndpointsChanged(p.key));
    }
  }

  lemma StepKeepsInv(cfg: Config, s: State, op: Op)
    requires Inv(s) && Enabled(s, op)
    ensures Inv(Step(cfg, s, op))
  {
    match op
    case Check(stats, now) => CheckFirstKeepsInv(cfg, s, s.net.peers, |s.net.peers|, stats, now, Step(cfg, s, op));
    case Start(stats, now) =>
      StartFirstKeepsInv(cfg, s, s.net.peers, |s.net.peers|, stats, now);
    case Complete(attempt, success, now) => FinishKeepsInv(cfg, s, attempt, success, now);
    case CommitOp(peers, programmed, selfID, servingExit) =>
      CommitFirstKeepsInv(s, s.path.epSeen, peers, programmed, |peers|);
    case SetBridge(up) =>
    case SetPreferredExit(nameOrIP) =>
  }

  lemma {:induction false} RunKeepsInv(cfg: Config, ops: seq<Op>, s: State)
    requires Reaches(cfg, ops, s)
    ensures Inv(s)
  {
    if ops != [] {
      var n := |ops| - 1;
      var before :| Reaches(cfg, ops[..n], before) && Enabled(before, ops[n]) && s == Step(cfg, before, ops[n]);
      RunKeepsInv(cfg, ops[..n], before);
      StepKeepsInv(cfg, before, ops[n]);
    }
  }

  // ------------------------------------------------------------- main theorems

  /** The attempt key waits for is out; when it completes, whatever its result, the peer is no longer probing. */
  ghost predicate WillSettle(cfg: Config, s: State, key: Key)
    requires key in s.probes.discoUpgrades
  {
    var d := s.probes.discoUpgrades[key];
    forall success, now ::
      var done := Complete(Attempt(key, d.fingerprint, d.relayCycle, d.attemptID), success, now);
      && Enabled(s, done) && key in Step(cfg, s, done).probes.discoUpgrades
      && !Step(cfg, s, done).probes.discoUpgrades[key].probing
  }

  /** In every reachable state the probe bookkeeping is exact and no peer is stuck probing. */
  lemma ProbeBookkeeping(cfg: Config, ops: seq<Op>, s: State)
    requires Reaches(cfg, ops, s)
    ensures s.probes.discoProbesInFlight == |s.trace.outstanding| <= 4
    ensures forall key :: key in s.probes.discoUpgrades ==>
              var d := s.probes.discoUpgrades[key];
              && (d.probing ==> Attempt(key, d.fingerprint, d.relayCycle, d.attemptID) in s.trace.outstanding)
              && (d.probing ==> WillSettle(cfg, s, key))
              && (d.directTrial ==> !d.probing && key !in s.path.relayed)
  {
    RunKeepsInv(cfg, ops, s);
    forall key | key in s.probes.discoUpgrades
      ensures EntryOK(s.path.relayed, s.probes.discoProbeSequence, s.trace, key, s.probes.discoUpgrades[key])
    {
    }
  }

  /** Over every run: a gated move is backed by a success for the same endpoints and relay cycle, at most 10 s old. */
  lemma GatedMovesAreAuthorised(cfg: Config, ops: seq<Op>, s: State, j: nat)
    requires Reaches(cfg, ops, s)
    requires j < |s.trace.log| && s.trace.log[j].MovedToDirect? && s.trace.log[j].gated
    ensures exists i: nat :: i < j && s.trace.log[i].ProbeSucceeded?
              && s.trace.log[i].attempt.key == s.trace.log[j].key
              && s.trace.log[i].attempt.fingerprint == s.trace.log[j].fingerprint
              && s.trace.log[i].attempt.relayCycle == s.trace.log[j].relayCycle
              && 0 <= s.trace.log[j].at - s.trace.log[i].at <= 10_000
              && Authorises(s.trace.log, i, j)
  {
    RunKeepsInv(cfg, ops, s);
    assert GatedMove(s.trace.log, j);
  }

  /** ... and no success authorises two moves. */
  lemma NoSuccessServesTwice(cfg: Config, ops: seq<Op>, s: State, i: nat, j: nat, k: nat)
    requires Reaches(cfg, ops, s)
    requires j < k < |s.trace.log| && GatedMove(s.trace.log, j) && GatedMove(s.trace.log, k)
    ensures !(Authorises(s.trace.log, i, j) && Authorises(s.trace.log, i, k))
  {
    RunKeepsInv(cfg, ops, s);
  }

  // ------------------------------------------- leaving the relay never goes unseen

  /** p left the relay in this event: through the gate, or past it when it is not enabled, or for new endpoints. */
  ghost predicate ExplainsLeaving(cfg: Config, net: NetView, key: Key, e: Event) {
    || e == EndpointsChanged(key)
    || (e.MovedToDirect? && e.key == key
        && (exists p :: p in net.peers && p.key == key && e.fingerprint == FingerprintOf(p)
                        && e.gated == GateEnabled(cfg, net.bridge, p)))
  }

  ghost predicate Explained(cfg: Config, net: NetView, key: Key, before: seq<Event>, after: seq<Event>) {
    before <= after && exists j :: |before| <= j < |after| && ExplainsLeaving(cfg, net, key, after[j])
  }

  /** One peer's check: only its own key may leave the relay, and the event says how. */
  lemma CheckPeerLogsLeaving(cfg: Config, s: State, p: Node, stats: Stats, now: Time)
    requires p in s.net.peers
    ensures var r := CheckPeer(cfg, s, p, stats, now);
            && r.net == s.net && s.trace.log <= r.trace.log
            && forall key :: key in s.path.relayed && key !in r.path.relayed ==>
                 && key == p.key && |r.trace.log| == |s.trace.log| + 1
                 && r.trace.log[|s.trace.log|].MovedToDirect?
                 && r.trace.log[|s.trace.log|].relayCycle == s.path.Cycle(key)
                 && ExplainsLeaving(cfg, s.net, key, r.trace.log[|s.trace.log|])
  {
  }

  lemma {:induction false} CheckFirstLogsLeaving(cfg: Config, s: State, peers: seq<Node>, n: nat, stats: Stats,
                                                 now: Time, key: Key)
    requires n <= |peers| && peers == s.net.peers && key in s.path.relayed
    ensures var r := CheckFirst(cfg, s, peers, n, stats, now);
            r.net == s.net && s.trace.log <= r.trace.log
    ensures var r := CheckFirst(cfg, s, peers, n, stats, now);
            key !in r.path.relayed ==> Explained(cfg, s.net, key, s.trace.log, r.trace.log)
  {
    if n > 0 {
      CheckFirstLogsLeaving(cfg, s, peers, n - 1, stats, now, key);
      var s1 := CheckFirst(cfg, s, peers, n - 1, stats, now);
      CheckPeerLogsLeaving(cfg, s1, peers[n - 1], stats, now);
      var r := CheckFirst(cfg, s, peers, n, stats, now);
      if key !in r.path.relayed {
        if key in s1.path.relayed {
          assert ExplainsLeaving(cfg, s.net, key, r.trace.log[|s1.trace.log|]);
        } else {
          var j :| |s.trace.log| <= j < |s1.trace.log| && ExplainsLeaving(cfg, s.net, key, s1.trace.log[j]);
          assert r.trace.log[j] == s1.trace.log[j];
        }
      }
    }
  }

  lemma {:induction false} CommitLogsLeaving(cfg: Config, s: State, seen: map<Key, seq<string>>, peers: seq<Node>,
                                             programmed: set<Key>, n: nat, key: Key)
    requires n <= |peers| && key in s.path.relayed
    ensures var r := CommitFirst(s, seen, peers, programmed, n);
            s.trace.log <= r.trace.log
            && (key !in r.path.relayed ==> Explained(cfg, s.net, key, s.trace.log, r.trace.log))
  {
    if n > 0 {
      CommitLogsLeaving(cfg, s, seen, peers, programmed, n - 1, key);
      var s1 := CommitFirst(s, seen, peers, programmed, n - 1);
      var r := CommitFirst(s, seen, peers, programmed, n);
      if key !in r.path.relayed {
        if key in s1.path.relayed {
          assert r.trace.log[|s1.trace.log|] == EndpointsChanged(key);
        } else {
          var j :| |s.trace.log| <= j < |s1.trace.log| && ExplainsLeaving(cfg, s.net, key, s1.trace.log[j]);
          assert r.trace.log[j] == s1.trace.log[j];
        }
      }
    }
  }

  lemma {:induction false} StartKeepsPaths(cfg: Config, s: State, peers: seq<Node>, n: nat, stats: Stats, now: Time)
    requires n <= |peers|
    ensures var r := StartFirst(cfg, s, peers, n, stats, now);
            r.path == s.path && r.net == s.net && r.trace.log == s.trace.log
  {
    if n > 0 {
      StartKeepsPaths(cfg, s, peers, n - 1, stats, now);
    }
  }

  /** No step takes a peer off the relay without the log saying so, gated exactly when the gate is enabled. */
  lemma LeavingTheRelayIsLogged(cfg: Config, s: State, op: Op, key: Key)
    requires key in s.path.relayed && key !in Step(cfg, s, op).path.relayed
    ensures Explained(cfg, s.net, key, s.trace.log, Step(cfg, s, op).trace.log)
  {
    match op
    case Check(stats, now) => CheckFirstLogsLeaving(cfg, s, s.net.peers, |s.net.peers|, stats, now, key);
    case Start(stats, now) =>
      StartKeepsPaths(cfg, s, s.net.peers, |s.net.peers|, stats, now);
      assert false;
    case Complete(attempt, success, now) => assert false;
    case CommitOp(peers, programmed, selfID, servingExit) =>
      CommitLogsLeaving(cfg, s, s.path.epSeen, peers, programmed, |peers|, key);
    case SetBridge(up) => assert false;
    case SetPreferredExit(nameOrIP) => assert false;
  }

  // ------------------------------------------------------------ candidate rotation

  /** The candidate indices selected since the peer's endpoints last changed; index 0 is where it starts. */
  ghost function SelectedSince(log: seq<Event>, key: Key): set<nat> {
    if log == [] then {0}
    else
      var e, rest := log[|log| - 1], log[..|log| - 1];
      if e == EndpointsChanged(key) then {0}
      else if e.CandidateSelected? && e.key == key then SelectedSince(rest, key) + {e.index}
      else SelectedSince(rest, key)
  }

  ghost predicate AtMost(i: nat, last: nat) { i <= last }

  ghost function UpTo(n: nat, last: nat): set<nat> { set i: nat | i < n && AtMost(i, last) }

  /** The peer's advertised candidates, as the rotation knows them. */
  ghost function Known(path: PathBook, key: Key): seq<string> { Get(path.epSeen, key, []) }

  /** The rotation went through 0, 1, 2, ... in order, one step per attempt. */
  ghost predicate RotationOK(s: State, key: Key) {
    var n, index := |Known(s.path, key)|, Get(s.path.candidateIndex, key, 0);
    var attempts := Get(s.path.candidateAttempts, key, 0);
    if n < 2 then attempts == 0 && index == 0 && SelectedSince(s.trace.log, key) == {0}
    else index < n && (attempts < n ==> index == attempts) && SelectedSince(s.trace.log, key) == UpTo(n, attempts)
  }

  ghost predicate PeersKnown(s: State, key: Key) {
    forall p :: p in s.net.peers && p.key == key ==> p.candidates == Known(s.path, key)
  }

  /** Each fallback of the peer came after every one of its candidates was selected. */
  ghost predicate FallbacksOK(log: seq<Event>, key: Key) {
    forall j :: 0 <= j < |log| && log[j].MovedToRelay? && log[j].key == key && log[j].candidates >= 2 ==>
      SelectedSince(log[..j], key) == UpTo(log[j].candidates, log[j].candidates)
  }

  ghost predicate RotInv(s: State, key: Key) {
    RotationOK(s, key) && PeersKnown(s, key) && FallbacksOK(s.trace.log, key)
  }

  /** A netmap that lists the peer programs it, and lists it with one endpoint set. */
  ghost predicate Programs(op: Op, key: Key) {
    op.CommitOp? ==>
      && (forall p :: p in op.peers && p.key == key ==> key in op.programmed)
      && (forall p, q :: p in op.peers && q in op.peers && p.key == key == q.key ==> p.candidates == q.candidates)
  }

  lemma NoteFallbacks(log: seq<Event>, e: Event, key: Key)
    requires FallbacksOK(log, key)
    requires e.MovedToRelay? && e.key == key && e.candidates >= 2 ==>
               SelectedSince(log, key) == UpTo(e.candidates, e.candidates)
    ensures FallbacksOK(log + [e], key)
    ensures SelectedSince(log + [e], key) ==
            if e == EndpointsChanged(key) then {0}
            else if e.CandidateSelected? && e.key == key then SelectedSince(log, key) + {e.index}
            else SelectedSince(log, key)
  {
    var longer := log + [e];
    assert longer[..|log|] == log && longer[|longer| - 1] == e && longer[..|longer| - 1] == log;
    forall j | 0 <= j < |longer| && longer[j].MovedToRelay? && longer[j].key == key && longer[j].candidates >= 2
      ensures SelectedSince(longer[..j], key) == UpTo(longer[j].candidates, longer[j].candidates)
    {
      if j < |log| { assert longer[..j] == log[..j] && longer[j] == log[j]; }
    }
  }

  /** The rotation of key is as it was. */
  ghost predicate SameRotation(s: State, r: State, key: Key) {
    && r.net == s.net && Known(r.path, key) == Known(s.path, key)
    && Get(r.path.candidateAttempts, key, 0) == Get(s.path.candidateAttempts, key, 0)
    && Get(r.path.candidateIndex, key, 0) == Get(s.path.candidateIndex, key, 0)
  }

  /** An event that neither selects nor resets key's candidates keeps its rotation. */
  lemma EventKeepsRotation(s: State, r: State, e: Event, key: Key)
    requires RotInv(s, key) && SameRotation(s, r, key) && r.trace.log == s.trace.log + [e]
    requires e != EndpointsChanged(key) && !(e.CandidateSelected? && e.key == key)
    requires e.MovedToRelay? && e.key == key && e.candidates >= 2 ==>
               SelectedSince(s.trace.log, key) == UpTo(e.candidates, e.candidates)
    ensures RotInv(r, key)
  {
    NoteFallbacks(s.trace.log, e, key);
  }

  /** Rotating selects the next index and nothing else. */
  lemma RotateKeepsRotation(s: State, p: Node, now: Time, key: Key)
    requires RotInv(s, key) && p in s.net.peers && |p.candidates| > 1
    ensures RotInv(Rotate(s, p, now), key)
  {
    if key != p.key {
      EventKeepsRotation(s, Rotate(s, p, now), CandidateSelected(p.key, NextIndex(s.path, p)), key);
    } else {
      OwnRotation(s, p, now);
    }
  }

  lemma OwnRotation(s: State, p: Node, now: Time)
    requires RotInv(s, p.key) && p in s.net.peers && |p.candidates| > 1
    ensures RotInv(Rotate(s, p, now), p.key)
  {
    var key, n, r := p.key, |p.candidates|, Rotate(s, p, now);
    var next, attempts := NextIndex(s.path, p), Get(s.path.candidateAttempts, key, 0);
    assert Known(s.path, key) == p.candidates;
    assert next < n && (attempts + 1 < n ==> next == attempts + 1);
    NoteFallbacks(s.trace.log, CandidateSelected(key, next), key);
    NextIsNew(n, attempts, next);
    assert SelectedSince(r.trace.log, key) == UpTo(n, attempts + 1);
    assert Known(r.path, key) == p.candidates && Get(r.path.candidateAttempts, key, 0) == attempts + 1;
    assert RotationOK(r, key);
  }

  lemma NextIsNew(n: nat, attempts: nat, next: nat)
    requires next < n && (attempts + 1 < n ==> next == attempts + 1)
    ensures UpTo(n, attempts) + {next} == UpTo(n, attempts + 1)
  {
  }

  lemma FallBackKeepsRotation(s: State, p: Node, now: Time, key: Key)
    requires RotInv(s, key) && p in s.net.peers
    requires |p.candidates| > 1 ==> Get(s.path.candidateAttempts, p.key, 0) >= |p.candidates| - 1
    ensures RotInv(FallBack(s, p, now), key)
  {
    var e := MovedToRelay(p.key, |p.candidates|, now);
    if key == p.key && |p.candidates| > 1 {
      assert UpTo(|p.candidates|, Get(s.path.candidateAttempts, key, 0)) == UpTo(|p.candidates|, |p.candidates|);
    }
    EventKeepsRotation(s, FallBack(s, p, now), e, key);
  }

  lemma CheckDirectKeepsRotation(s: State, p: Node, stat: PeerStat, now: Time, key: Key)
    requires RotInv(s, key) && p in s.net.peers
    ensures RotInv(CheckDirect(s, p, stat, now), key)
  {
    if p.key in s.path.directSince {
      var since := s.path.directSince[p.key];
      var healthy := DirectHealthy(s.(probes := DropStaleTrial(s.probes, p)), p, stat, since, now);
      var s1 := s.(probes := JudgeTrial(s, p, healthy));
      assert RotInv(s1, key);
      if !healthy && |p.candidates| > 1 && now - since > CANDIDATE_TRIAL_AFTER && CandidateAvailable(s, p) {
        RotateKeepsRotation(s1, p, now, key);
      } else if s.net.bridge && !healthy && now - since > RELAY_FALLBACK_AFTER {
        FallBackKeepsRotation(s1, p, now, key);
      }
    }
  }

  lemma MoveKeepsRotation(s: State, p: Node, now: Time, gated: bool, permit: nat, key: Key)
    requires RotInv(s, key)
    ensures RotInv(MoveToDirect(s, p, now, gated, permit), key)
  {
    var e := MovedToDirect(p.key, FingerprintOf(p), s.path.Cycle(p.key), now, gated, permit);
    EventKeepsRotation(s, MoveToDirect(s, p, now, gated, permit), e, key);
  }

  lemma CheckRelayedKeepsRotation(cfg: Config, s: State, p: Node, stats: Stats, now: Time, key: Key)
    requires RotInv(s, key)
    ensures RotInv(CheckRelayed(cfg, s, p, stats, now), key)
  {
    var d := EntryFor(s.probes.discoUpgrades, p, s.path.Cycle(p.key));
    var s1 := s.(probes := Consume(s.probes, p, s.path.Cycle(p.key), StatOf(stats, p.key), now));
    assert RotInv(s1, key);
    MoveKeepsRotation(s, p, now, false, 0, key);
    MoveKeepsRotation(s1, p, now, true, d.attemptID, key);
  }

  lemma CheckPeerKeepsRotation(cfg: Config, s: State, p: Node, stats: Stats, now: Time, key: Key)
    requires RotInv(s, key) && p in s.net.peers
    ensures RotInv(CheckPeer(cfg, s, p, stats, now), key) && CheckPeer(cfg, s, p, stats, now).net == s.net
  {
    var stat := StatOf(stats, p.key);
    var s1 := s.(path := NoteTraffic(s.path, p.key, stat.rx, now));
    assert RotInv(s1, key);
    CheckDirectKeepsRotation(s1, p, stat, now, key);
    CheckRelayedKeepsRotation(cfg, s1, p, stats, now, key);
  }

  lemma {:induction false} CheckFirstKeepsRotation(cfg: Config, s: State, n: nat, stats: Stats, now: Time, key: Key)
    requires RotInv(s, key) && n <= |s.net.peers|
    ensures RotInv(CheckFirst(cfg, s, s.net.peers, n, stats, now), key)
    ensures CheckFirst(cfg, s, s.net.peers, n, stats, now).net == s.net
  {
    if n > 0 {
      CheckFirstKeepsRotation(cfg, s, n - 1, stats, now, key);
      var s1, p := CheckFirst(cfg, s, s.net.peers, n - 1, stats, now), s.net.peers[n - 1];
      assert p in s1.net.peers;
      CheckPeerKeepsRotation(cfg, s1, p, stats, now, key);
    }
  }

  /** A reset starts the rotation over with the new candidates. */
  lemma ResetKeepsRotation(s: State, p: Node, key: Key)
    requires RotationOK(s, key) && FallbacksOK(s.trace.log, key)
    ensures var r := ResetPeer(s, p.key, p.candidates);
            RotationOK(r, key) && FallbacksOK(r.trace.log, key)
            && Known(r.path, key) == if key == p.key then p.candidates else Known(s.path, key)
  {
    NoteFallbacks(s.trace.log, EndpointsChanged(p.key), key);
    assert key == p.key ==> forall n: nat :: n >= 2 ==> UpTo(n, 0) == {0};
  }

  /** known is what the first n peers list for key, or what it was if none of them lists it. */
  ghost predicate Learnt(was: seq<string>, known: seq<string>, peers: seq<Node>, n: nat, key: Key)
    requires n <= |peers|
  {
    && (forall m :: 0 <= m < n && peers[m].key == key ==> known == peers[m].candidates)
    && (known == was || exists m :: 0 <= m < n && peers[m].key == key && known == peers[m].candidates)
  }

  lemma {:induction false} CommitKeepsRotation(s: State, peers: seq<Node>, programmed: set<Key>, n: nat, key: Key)
    requires RotationOK(s, key) && FallbacksOK(s.trace.log, key) && n <= |peers|
    requires forall p :: p in peers && p.key == key ==> key in programmed
    requires forall p, q :: p in peers && q in peers && p.key == key == q.key ==> p.candidates == q.candidates
    ensures var r := CommitFirst(s, s.path.epSeen, peers, programmed, n);
            RotationOK(r, key) && FallbacksOK(r.trace.log, key)
            && Learnt(Known(s.path, key), Known(r.path, key), peers, n, key)
  {
    if n > 0 {
      CommitKeepsRotation(s, peers, programmed, n - 1, key);
      var p := peers[n - 1];
      assert p in peers;
      ResetKeepsRotation(CommitFirst(s, s.path.epSeen, peers, programmed, n - 1), p, key);
    }
  }

  lemma StepKeepsRotation(cfg: Config, s: State, op: Op, key: Key)
    requires RotInv(s, key) && Enabled(s, op) && Programs(op, key)
    ensures RotInv(Step(cfg, s, op), key)
  {
    match op
    case Check(stats, now) => CheckFirstKeepsRotation(cfg, s, |s.net.peers|, stats, now, key);
    case Start(stats, now) => StartKeepsPaths(cfg, s, s.net.peers, |s.net.peers|, stats, now);
    case Complete(attempt, success, now) =>
      if success { NoteFallbacks(s.trace.log, ProbeSucceeded(attempt, now), key); }
    case CommitOp(peers, programmed, selfID, servingExit) =>
      CommitKeepsRotation(s, peers, programmed, |peers|, key);
    case SetBridge(up) =>
    case SetPreferredExit(nameOrIP) =>
  }

  lemma {:induction false} RunKeepsRotation(cfg: Config, ops: seq<Op>, s: State, key: Key)
    requires Reaches(cfg, ops, s) && forall i :: 0 <= i < |ops| ==> Programs(ops[i], key)
    ensures RotInv(s, key)
  {
    if ops != [] {
      var n := |ops| - 1;
      var before :| Reaches(cfg, ops[..n], before) && Enabled(before, ops[n]) && s == Step(cfg, before, ops[n]);
      RunKeepsRotation(cfg, ops[..n], before, key);
      StepKeepsRotation(cfg, before, ops[n], key);
    }
  }

  /**
   A peer with n >= 2 direct candidates falls back to the relay only after all n were selected since its endpoints
   changed.
   */
  lemma FallbackTriesEveryCandidate(cfg: Config, ops: seq<Op>, s: State, key: Key, j: nat, index: nat)
    requires Reaches(cfg, ops, s) && forall i :: 0 <= i < |ops| ==> Programs(ops[i], key)
    requires j < |s.trace.log| && s.trace.log[j].MovedToRelay? && s.trace.log[j].key == key
    requires 2 <= s.trace.log[j].candidates && index < s.trace.log[j].candidates
    ensures index in SelectedSince(s.trace.log[..j], key)
  {
    RunKeepsRotation(cfg, ops, s, key);
  }

  // ------------------------------------------------------------------ the code runs

  /** The daemon's own method for each operation takes it where the step function says. */
  method Perform(d: Daemon, op: Op)
    requires Enabled(d.Snapshot(), op)
    modifies d
    ensures d.Snapshot() == Step(d.cfg, old(d.Snapshot()), op)
  {
    match op {
      case Check(stats, now) => d.CheckRelayTransitions(stats, now);
      case Start(stats, now) => var attempts := d.StartDueProbes(stats, now);
      case Complete(attempt, success, now) => d.FinishProbe(attempt, success, now);
      case CommitOp(peers, programmed, selfID, servingExit) => d.CommitNetmap(peers, programmed, selfID, servingExit);
      case SetBridge(up) => d.SetBridge(up);
      case SetPreferredExit(nameOrIP) => d.SetPreferredExit(nameOrIP);
    }
  }

  /** Every gated move has its own success, every fallback had its candidates, and the probe counter is exact. */
  ghost predicate Kept(s: State, ops: seq<Op>) {
    && s.probes.discoProbesInFlight == |s.trace.outstanding| <= 4
    && MovesOK(s.trace.log)
    && forall key :: ProgramsAll(ops, key) ==> FallbacksOK(s.trace.log, key)
  }

  /** Every netmap of the run programs the peer. */
  ghost predicate ProgramsAll(ops: seq<Op>, key: Key) {
    forall i :: 0 <= i < |ops| ==> Programs(ops[i], key)
  }

  lemma ReachableIsKept(cfg: Config, ops: seq<Op>, s: State)
    requires Reaches(cfg, ops, s)
    ensures Kept(s, ops)
  {
    RunKeepsInv(cfg, ops, s);
    forall key | ProgramsAll(ops, key) ensures FallbacksOK(s.trace.log, key) {
      RunKeepsRotation(cfg, ops, s, key);
    }
  }

  lemma ReachesOneMore(cfg: Config, ops: seq<Op>, s: State, op: Op)
    requires Reaches(cfg, ops, s) && Enabled(s, op)
    ensures Reaches(cfg, ops + [op], Step(cfg, s, op))
  {
    var longer := ops + [op];
    assert longer[..|longer| - 1] == ops && longer[|longer| - 1] == op;
  }

  /** Operations lead to one state only. */
  lemma {:induction false} ReachesOne(cfg: Config, ops: seq<Op>, s: State, t: State)
    requires Reaches(cfg, ops, s) && Reaches(cfg, ops, t)
    ensures s == t
  {
    if ops != [] {
      var n := |ops| - 1;
      var before :| Reaches(cfg, ops[..n], before) && Enabled(before, ops[n]) && s == Step(cfg, before, ops[n]);
      var other :| Reaches(cfg, ops[..n], other) && Enabled(other, ops[n]) && t == Step(cfg, other, ops[n]);
      ReachesOne(cfg, ops[..n], before, other);
    }
  }

  /** In a possible run each operation is enabled when its turn comes. */
  lemma {:induction false} EnabledInTurn(cfg: Config, ops: seq<Op>, s: State, i: nat, before: State)
    requires Reaches(cfg, ops, s) && i < |ops| && Reaches(cfg, ops[..i], before)
    ensures Enabled(before, ops[i])
  {
    var n := |ops| - 1;
    var last :| Reaches(cfg, ops[..n], last) && Enabled(last, ops[n]) && s == Step(cfg, last, ops[n]);
    if i == n {
      ReachesOne(cfg, ops[..n], before, last);
    } else {
      assert ops[..n][..i] == ops[..i];
      EnabledInTurn(cfg, ops[..n], last, i, before);
    }
  }

  /** A new daemon, run on any operations that can happen in this order, does what the theorems above promise. */
  method Run(cfg: Config, ops: seq<Op>) returns (d: Daemon)
    requires exists s :: Reaches(cfg, ops, s)
    ensures fresh(d) && d.cfg == cfg
    ensures Reaches(cfg, ops, d.Snapshot()) && Kept(d.Snapshot(), ops)
  {
    ghost var end :| Reaches(cfg, ops, end);
    d := new Daemon(cfg);
    for i := 0 to |ops|
      invariant fresh(d) && d.cfg == cfg && Reaches(cfg, ops[..i], d.Snapshot())
    {
      assert ops[..i + 1] == ops[..i] + [ops[i]];
      EnabledInTurn(cfg, ops, end, i, d.Snapshot());
      ReachesOneMore(cfg, ops[..i], d.Snapshot(), ops[i]);
      Perform(d, ops[i]);
    }
    assert ops[..|ops|] == ops;
    ReachableIsKept(cfg, ops, d.Snapshot());
  }
}
