/**
 The rollback floors of the macOS updater (UpdateStore in
 clients/macos-menubar/UpdateSupport.swift).

 The store runs on the main actor, so what happens between two awaits is one step: each
 method below is such a step, and checks and downloads that are waiting for the network
 are kept in tasks, to be finished in any order. The stored floors outlive a launch.
 */
module Updater {
  import opened Optional
  import opened Decimal
  import opened Versions

  type TaskID = nat

  datatype Phase = Idle | Checking | UpToDate | Available | Downloading | Ready | Failed {
    predicate Busy() { this == Checking || this == Downloading }
  }

  datatype Manifest = Manifest(version: string, minimumSystemVersion: string, sha256: string)

  datatype Task = CheckTask(manual: bool) | DownloadTask(candidate: Manifest)

  datatype Floors = Floors(installed: Option<string>, verified: Option<string>)

  /** What one launch shows its user. */
  datatype View = View(current: string, phase: Phase, manifest: Option<Manifest>, package: Option<Manifest>)

  datatype CheckResult = Refused | NothingNewer | Offer

  datatype Event =
    | Launched(version: string)
    | Verified(version: string)
    | Offered(version: string)
    | Interrupted

  // ------------------------------------------------------------------ the promises

  ghost predicate Exact(version: string) { IsVersion(version, EXACT) }

  ghost predicate AtLeast(version: string, other: string) {
    IsVersion(version, LOOSE) && IsVersion(other, LOOSE) && RankOf(other) <= RankOf(version)
  }

  /** version is no step back from e: from a valid version that ran here, or from a package verified here. */
  ghost predicate NotBehind(version: string, e: Event) {
    (e.Launched? || e.Verified?) && Exact(e.version) ==> AtLeast(version, e.version)
  }

  ghost predicate Covers(version: string, log: seq<Event>) {
    forall i :: 0 <= i < |log| ==> NotBehind(version, log[i])
  }

  ghost predicate OfferCovers(log: seq<Event>, j: nat)
    requires j < |log|
  {
    log[j].Offered? ==> Covers(log[j].version, log[..j])
  }

  /** Every offer, when it was made, covered all that had happened before it. */
  ghost predicate Sound(log: seq<Event>) {
    forall j: nat :: j < |log| ==> OfferCovers(log, j)
  }

  /** A manual check has been asked for during this launch while another transfer was under way. */
  ghost predicate Disturbed(log: seq<Event>) {
    log != [] && (log[|log| - 1].Interrupted? || (!log[|log| - 1].Launched? && Disturbed(log[..|log| - 1])))
  }

  lemma SoundOneMore(log: seq<Event>, e: Event)
    requires Sound(log) && (e.Offered? ==> Covers(e.version, log))
    ensures Sound(log + [e])
    ensures Disturbed(log + [e]) <==> e.Interrupted? || (!e.Launched? && Disturbed(log))
  {
    var longer := log + [e];
    assert longer[..|log|] == log;
    forall j: nat | j < |longer| ensures OfferCovers(longer, j) {
      assert longer[..j] == log[..j];
      assert j < |log| ==> OfferCovers(log, j);
    }
  }

  ghost predicate ValidFloor(floor: Option<string>) { floor.Some? ==> Exact(floor.value) }

  ghost predicate ValidFloors(floors: Floors) { ValidFloor(floors.installed) && ValidFloor(floors.verified) }

  ghost predicate FloorAtLeast(floor: Option<string>, version: string) { floor.Some? && AtLeast(floor.value, version) }

  ghost predicate Recorded(floors: Floors, e: Event) {
    && (e.Launched? && Exact(e.version) ==> FloorAtLeast(floors.installed, e.version))
    && (e.Verified? ==> Exact(e.version) && FloorAtLeast(floors.verified, e.version))
  }

  /** The floors remember the whole log. */
  ghost predicate Remember(floors: Floors, log: seq<Event>) {
    forall i :: 0 <= i < |log| ==> Recorded(floors, log[i])
  }

  ghost predicate Above(version: string, floor: Option<string>) { floor.Some? ==> AtLeast(version, floor.value) }

  ghost predicate AboveFloors(version: string, floors: Floors) {
    Above(version, floors.installed) && Above(version, floors.verified)
  }

  lemma FloorsCover(floors: Floors, log: seq<Event>, version: string)
    requires Remember(floors, log) && AboveFloors(version, floors)
    ensures Covers(version, log)
  {
    forall i | 0 <= i < |log| ensures NotBehind(version, log[i]) {
      assert Recorded(floors, log[i]);
    }
  }

  ghost predicate Rises(before: Option<string>, after: Option<string>) {
    before.Some? ==> FloorAtLeast(after, before.value)
  }

  lemma RememberOneMore(before: Floors, after: Floors, log: seq<Event>, e: Event)
    requires Remember(before, log) && Rises(before.installed, after.installed) && Rises(before.verified, after.verified)
    requires Recorded(after, e)
    ensures Remember(after, log + [e])
  {
    forall i | 0 <= i < |log + [e]| ensures Recorded(after, (log + [e])[i]) {
      assert i < |log| ==> Recorded(before, log[i]);
    }
  }

  // --------------------------------------------------------------------- the store

  class UpdateStore {
    const isNumber: char -> bool
    const numeric: (string, string) -> Ordering
    var automatic: bool
    var floors: Floors
    var view: View
    var tasks: map<TaskID, Task>
    ghost var log: seq<Event>

    /** What holds in every reachable state. */
    ghost predicate Valid()
      reads this
    {
      && NumberTest(isNumber) && ValidFloors(floors)
      && Sound(log) && Remember(floors, log)
      && (view.manifest.Some? ==> Exact(view.manifest.value.version) && Newer(view.manifest.value))
      && (forall t :: t in tasks && tasks[t].DownloadTask? ==> Exact(tasks[t].candidate.version))
      && (!Disturbed(log) ==> Calm())
    }

    /** The manifest is newer than the version running now. */
    ghost predicate Newer(manifest: Manifest)
      reads this
    {
      Compared(view.current, manifest.version, numeric) == Ascending
    }

    /** The manifest on offer covers all that has happened by now. */
    ghost predicate Standing()
      reads this
    {
      view.manifest.Some? ==> Covers(view.manifest.value.version, log)
    }

    /**
     One transfer at a time; it downloads what is on offer; what is ready is what is on offer, and that is no step
     back.
     */
    ghost predicate Calm()
      reads this
    {
      && (view.phase.Busy() <==> tasks != map[])
      && (forall t, u :: t in tasks && u in tasks ==> t == u)
      && (forall t :: t in tasks && tasks[t].DownloadTask? ==> view.manifest == Some(tasks[t].candidate))
      && (view.package.Some? ==> view.package == view.manifest)
      && (view.manifest.Some? ==> AboveFloors(view.manifest.value.version, floors))
    }

    /** Without an interruption the manifest on offer covers everything so far, at every moment. */
    lemma CalmOffersStand()
      requires Valid() && !Disturbed(log)
      ensures Standing()
      ensures view.package.Some? ==> Covers(view.package.value.version, log) && Newer(view.package.value)
    {
      if view.manifest.Some? {
        FloorsCover(floors, log, view.manifest.value.version);
      }
    }

    /** advanceVersionFloor. */
    method AdvanceVersionFloor(floor: Option<string>, version: string) returns (r: Option<string>)
      requires NumberTest(isNumber) && ValidFloor(floor)
      ensures ValidFloor(r) && Rises(floor, r) && r in {floor, Some(version)}
      ensures if Exact(version) then FloorAtLeast(r, version) else r == floor
    {
      if floor.Some? { ExactIsLoose(floor.value); }
      var parsed := ParseVersion(version, true, isNumber);
      if parsed.None? {
        return floor;
      }
      ExactIsLoose(version);
      if floor.None? {
        return Some(version);
      }
      var order := CompareVersions(floor.value, version, isNumber, numeric);
      if order == Ascending {
        return Some(version);
      }
      return floor;
    }

    /** rollbackFloor: the larger of the floors there are. */
    method RollbackFloor() returns (r: Option<string>)
      requires NumberTest(isNumber) && ValidFloors(floors)
      ensures ValidFloor(r) && r in {None, floors.installed, floors.verified}
      ensures forall v :: IsVersion(v, LOOSE) ==> (Above(v, r) <==> AboveFloors(v, floors))
    {
      var present := (if floors.installed.Some? then [floors.installed.value] else [])
      + (if floors.verified.Some? then [floors.verified.value] else []);
      if present == [] {
        return None;
      }
      var best := present[0];
      ExactIsLoose(best);
      if |present| == 2 {
        ExactIsLoose(present[1]);
        var order := CompareVersions(best, present[1], isNumber, numeric);
        if order == Ascending {
          best := present[1];
        }
      }
      return Some(best);
    }

    /** The first launch: floors empty or left valid by an earlier installation. */
    constructor (isNumber: char -> bool, numeric: (string, string) -> Ordering, automatic: bool, stored: Floors,
                 current: string)
      requires NumberTest(isNumber) && ValidFloors(stored)
      ensures Valid() && !Disturbed(log) && log == [Launched(current)]
      ensures this.isNumber == isNumber && this.numeric == numeric && this.automatic == automatic
      ensures view == View(current, Idle, None, None) && tasks == map[]
      ensures Exact(current) ==> FloorAtLeast(floors.installed, current)
      ensures floors.verified == stored.verified && Rises(stored.installed, floors.installed)
      ensures floors.installed in {stored.installed, Some(current)}
    {
      this.isNumber, this.numeric, this.automatic := isNumber, numeric, automatic;
      floors, tasks, log := stored, map[], [];
      view := View(current, Idle, None, None);
      new;
      Launch(current);
    }

    /** init, in a later launch: the floors are the stored ones, everything else starts afresh. */
    method Launch(current: string)
      requires Valid()
      modifies this
      ensures Valid() && !Disturbed(log) && log == old(log) + [Launched(current)]
      ensures view == View(current, Idle, None, None) && tasks == map[] && automatic == old(automatic)
      ensures Exact(current) ==> FloorAtLeast(floors.installed, current)
      ensures floors.verified == old(floors).verified && Rises(old(floors).installed, floors.installed)
      ensures floors.installed in {old(floors).installed, Some(current)}
    {
      var installed := AdvanceVersionFloor(floors.installed, current);
      if floors.verified.Some? { ExactIsLoose(floors.verified.value); }
      ghost var e := Launched(current);
      SoundOneMore(log, e);
      RememberOneMore(floors, floors.(installed := installed), log, e);
      floors := floors.(installed := installed);
      view := View(current, Idle, None, None);
      tasks := map[];
      log := log + [e];
    }

    /** check, up to its first await. A manual check while busy marks the phase failed, though the transfer goes on. */
    method BeginCheck(id: TaskID, manual: bool, feed: bool) returns (started: bool)
      requires Valid() && id !in tasks
      modifies this
      ensures Valid() && floors == old(floors) && automatic == old(automatic)
      ensures started <==> !old(view).phase.Busy() && feed
      ensures tasks == if started then old(tasks)[id := CheckTask(manual)] else old(tasks)
      ensures view == old(view).(phase := if started then Checking else if manual then Failed else old(view).phase)
      ensures log == if old(view).phase.Busy() && manual then old(log) + [Interrupted] else old(log)
    {
      if view.phase.Busy() || !feed {
        if manual {
          if view.phase.Busy() {
            SoundOneMore(log, Interrupted);
            RememberOneMore(floors, floors, log, Interrupted) by { FloorsRise(floors); }
            log := log + [Interrupted];
          }
          view := view.(phase := Failed);
        }
        return false;
      }
      view := view.(phase := Checking);
      tasks := tasks[id := CheckTask(manual)];
      return true;
    }

    static lemma FloorsRise(floors: Floors)
      requires ValidFloors(floors)
      ensures Rises(floors.installed, floors.installed) && Rises(floors.verified, floors.verified)
    {
      if floors.installed.Some? { ExactIsLoose(floors.installed.value); }
      if floors.verified.Some? { ExactIsLoose(floors.verified.value); }
    }

    /** The manifest passes verify (its signatures being genuine), suits the system and is not below either floor. */
    ghost predicate Acceptable(candidate: Manifest, genuine: bool, system: string)
      reads this
    {
      && genuine && Exact(candidate.version) && IsVersion(candidate.minimumSystemVersion, LOOSE)
      && Compared(system, candidate.minimumSystemVersion, numeric) != Ascending
      && AboveFloors(candidate.version, floors)
    }

    method Accept(candidate: Manifest, genuine: bool, system: string) returns (ok: bool)
      requires NumberTest(isNumber) && ValidFloors(floors)
      ensures ok <==> Acceptable(candidate, genuine, system)
    {
      var version := ParseVersion(candidate.version, true, isNumber);
      var minimum := ParseVersion(candidate.minimumSystemVersion, false, isNumber);
      if version.None? || minimum.None? || !genuine {
        return false;
      }
      ExactIsLoose(candidate.version);
      var supported := CompareVersions(system, candidate.minimumSystemVersion, isNumber, numeric);
      if supported == Ascending {
        return false;
      }
      var floor := RollbackFloor();
      if floor.Some? {
        ExactIsLoose(floor.value);
        var order := CompareVersions(candidate.version, floor.value, isNumber, numeric);
        return order != Ascending;
      }
      return true;
    }

    /** What check makes of the feed's answer (None: the transfer failed). */
    method Judge(answer: Option<Manifest>, genuine: bool, system: string) returns (r: CheckResult)
      requires NumberTest(isNumber) && ValidFloors(floors)
      ensures r == Refused <==> !(answer.Some? && Acceptable(answer.value, genuine, system))
      ensures r == Offer <==> answer.Some? && Acceptable(answer.value, genuine, system) && Newer(answer.value)
    {
      if answer.None? {
        return Refused;
      }
      var ok := Accept(answer.value, genuine, system);
      if !ok {
        return Refused;
      }
      var order := CompareVersions(view.current, answer.value.version, isNumber, numeric);
      return if order == Ascending then Offer else NothingNewer;
    }

    /** check, after the feed has answered; an automatic check starts the download at once. */
    method FinishCheck(id: TaskID, answer: Option<Manifest>, genuine: bool, system: string) returns (r: CheckResult)
      requires Valid() && id in tasks && tasks[id].CheckTask?
      modifies this
      ensures Valid() && floors == old(floors) && automatic == old(automatic)
      ensures r == Refused <==> !(answer.Some? && old(Acceptable(answer.value, genuine, system)))
      ensures r == Offer <==> answer.Some? && old(Acceptable(answer.value, genuine, system) && Newer(answer.value))
      ensures r == Refused ==> view == old(view).(phase := Failed)
      ensures r == NothingNewer ==>
                view == View(old(view).current, if old(tasks)[id].manual then UpToDate else Idle, None, None)
      ensures r == Offer ==>
                && view == View(old(view).current, view.phase, answer, None) && Standing()
                && view.phase == if automatic && !old(tasks)[id].manual then Downloading else Available
      ensures tasks == if r == Offer && automatic && !old(tasks)[id].manual
                       then old(tasks)[id := DownloadTask(answer.value)] else old(tasks) - {id}
      ensures log == if r == Offer then old(log) + [Offered(answer.value.version)] else old(log)
    {
      var manual := tasks[id].manual;
      r := Judge(answer, genuine, system);
      if r == Refused {
        Settle(id, view.(phase := Failed));
        return;
      }
      if r == NothingNewer {
        Settle(id, View(view.current, if manual then UpToDate else Idle, None, None));
        return;
      }
      TakeOffer(id, answer.value);
    }

    /** The check ends in an offer, which an automatic check downloads at once. */
    method TakeOffer(id: TaskID, candidate: Manifest)
      requires Valid() && id in tasks && tasks[id].CheckTask?
      requires Exact(candidate.version) && Newer(candidate) && AboveFloors(candidate.version, floors)
      modifies this`view, this`tasks, this`log
      ensures Valid() && Standing() && log == old(log) + [Offered(candidate.version)]
      ensures var loading := automatic && !old(tasks)[id].manual;
              && view == View(old(view).current, if loading then Downloading else Available, Some(candidate), None)
              && tasks == if loading then old(tasks)[id := DownloadTask(candidate)] else old(tasks) - {id}
    {
      var manual := tasks[id].manual;
      Settle(id, view.(phase := Available));
      MakeOffer(candidate);
      if automatic && !manual {
        Download(id);
      }
    }

    /** The check is over, with nothing new on offer. */
    method Settle(id: TaskID, next: View)
      requires Valid() && id in tasks && tasks[id].CheckTask?
      requires next.current == view.current && !next.phase.Busy()
      requires (next.manifest == view.manifest && next.package == view.package)
               || (next.manifest.None? && next.package.None?)
      modifies this`view, this`tasks
      ensures Valid() && view == next && tasks == old(tasks) - {id}
    {
      view := next;
      tasks := tasks - {id};
    }

    /** The offer itself. */
    method MakeOffer(candidate: Manifest)
      requires Valid() && !view.phase.Busy()
      requires Exact(candidate.version) && Newer(candidate) && AboveFloors(candidate.version, floors)
      modifies this`view, this`log
      ensures Valid() && Standing()
      ensures view == View(old(view).current, Available, Some(candidate), None)
      ensures log == old(log) + [Offered(candidate.version)]
    {
      ghost var e := Offered(candidate.version);
      FloorsCover(floors, log, candidate.version);
      SoundOneMore(log, e);
      RememberOneMore(floors, floors, log, e) by { FloorsRise(floors); }
      view := View(view.current, Available, Some(candidate), None);
      log := log + [e];
      FloorsCover(floors, log, candidate.version);
    }

    /** downloadAvailableUpdate. */
    method BeginDownload(id: TaskID) returns (started: bool)
      requires Valid() && id !in tasks
      modifies this
      ensures Valid() && floors == old(floors) && automatic == old(automatic) && log == old(log)
      ensures started <==> old(view).manifest.Some? && !old(view).phase.Busy()
      ensures view == if started then old(view).(phase := Downloading) else old(view)
      ensures tasks == if started then old(tasks)[id := DownloadTask(old(view).manifest.value)] else old(tasks)
    {
      if view.manifest.None? || view.phase.Busy() {
        return false;
      }
      Download(id);
      return true;
    }

    /** download, up to its first await, of the manifest on offer. */
    method Download(id: TaskID)
      requires Valid() && id !in tasks && view.manifest.Some? && !view.phase.Busy()
      modifies this`view, this`tasks
      ensures Valid() && view == old(view).(phase := Downloading)
      ensures tasks == old(tasks)[id := DownloadTask(view.manifest.value)]
    {
      tasks := tasks[id := DownloadTask(view.manifest.value)];
      view := view.(phase := Downloading);
    }

    /** download, after the transfer; sound says that size and checksum matched and the package was stored.
        The manifest on offer still stands exactly when the package is not above it. */
    method FinishDownload(id: TaskID, sound: bool)
      requires Valid() && id in tasks && tasks[id].DownloadTask?
      modifies this
      ensures Valid() && automatic == old(automatic) && tasks == old(tasks) - {id}
      ensures floors.installed == old(floors).installed
      ensures !sound ==> floors == old(floors) && log == old(log) && view == old(view).(phase := Failed)
      ensures sound ==> var candidate := old(tasks)[id].candidate;
                        && log == old(log) + [Verified(candidate.version)]
                        && view == old(view).(phase := Ready, package := Some(candidate))
                        && FloorAtLeast(floors.verified, candidate.version)
                        && Rises(old(floors).verified, floors.verified)
                        && floors.verified in {old(floors).verified, Some(candidate.version)}
      ensures old(Standing()) ==>
                (Standing() <==>
                 !sound || view.manifest.None?
                 || AtLeast(view.manifest.value.version, old(tasks)[id].candidate.version))
    {
      var candidate := tasks[id].candidate;
      tasks := tasks - {id};
      if !sound {
        view := view.(phase := Failed);
        return;
      }
      var verified := AdvanceVersionFloor(floors.verified, candidate.version);
      FloorsRise(floors);
      ghost var e, before := Verified(candidate.version), log;
      SoundOneMore(log, e);
      RememberOneMore(floors, floors.(verified := verified), log, e);
      floors := floors.(verified := verified);
      log := log + [e];
      view := view.(phase := Ready, package := Some(candidate));
      if view.manifest.Some? {
        CoversOneMore(view.manifest.value.version, before, e);
      }
    }

    static lemma CoversOneMore(version: string, log: seq<Event>, e: Event)
      ensures Covers(version, log + [e]) <==> Covers(version, log) && NotBehind(version, e)
    {
      var longer := log + [e];
      assert forall i :: 0 <= i < |log| ==> longer[i] == log[i];
      assert longer[|log|] == e;
      if Covers(version, longer) {
        assert forall i :: 0 <= i < |log| ==> NotBehind(version, longer[i]);
      }
    }

    /** automaticUpdates; the check that switching it on asks for is a step of its own. */
    method SetAutomatic(on: bool)
      requires Valid()
      modifies this`automatic
      ensures Valid() && automatic == on
    {
      automatic := on;
    }

    /** One step of any run; a step its task is not ready for does not happen. */
    method Perform(step: Step)
      requires Valid()
      modifies this
      ensures Valid() && old(log) <= log
    {
      match step {
        case Relaunch(current) => Launch(current);
        case StartCheck(id, manual, feed) =>
          if id !in tasks { var started := BeginCheck(id, manual, feed); }
        case EndCheck(id, answer, genuine, system) =>
          if id in tasks && tasks[id].CheckTask? { var r := FinishCheck(id, answer, genuine, system); }
        case StartDownload(id) =>
          if id !in tasks { var started := BeginDownload(id); }
        case EndDownload(id, sound) =>
          if id in tasks && tasks[id].DownloadTask? { FinishDownload(id, sound); }
        case Toggle(on) => SetAutomatic(on);
      }
    }

    /** Over any run of launches, checks and downloads every offer covered what came before it. */
    method Run(steps: seq<Step>)
      requires Valid()
      modifies this
      ensures Valid() && old(log) <= log && Sound(log)
      ensures !Disturbed(log) ==> Standing()
    {
      for i := 0 to |steps|
        invariant Valid() && old(log) <= log
      {
        Perform(steps[i]);
      }
      if !Disturbed(log) {
        CalmOffersStand();
      }
    }
  }

  datatype Step =
    | Relaunch(current: string)
    | StartCheck(id: TaskID, manual: bool, feed: bool)
    | EndCheck(id: TaskID, answer: Option<Manifest>, genuine: bool, system: string)
    | StartDownload(id: TaskID)
    | EndDownload(id: TaskID, sound: bool)
    | Toggle(on: bool)

  // ------------------------------------------------- an offer overtaken by a download

  function Major(n: nat): string
    requires n < 10
  {
    [Digit(n)] + ".0.0"
  }

  lemma MajorIsVersion(n: nat)
    requires n < 10
    ensures Exact(Major(n)) && IsVersion(Major(n), LOOSE)
    ensures RankOf(Major(n)) == n * 1_000_000_000_000
  {
    var numbers: seq<nat> := [n, 0, 0];
    var parts := seq(3, i requires 0 <= i < 3 => Itoa(numbers[i]));
    assert parts == [[Digit(n)], "0", "0"];
    assert Join(parts) == parts[0] + "." + Join(parts[1..]);
    assert Join(parts[1..]) == parts[1] + "." + Join(parts[2..]);
    assert Join(parts[2..]) == "0";
    assert Render(numbers) == Major(n);
    assert Renders(Major(n), numbers, EXACT) && Renders(Major(n), numbers, LOOSE);
    RenderInjective(numbers, Numbers(Major(n)));
  }

  ghost predicate Increasing(low: string, middle: string, high: string) {
    && Exact(low) && Exact(middle) && Exact(high)
    && Compared(low, middle, (a, b) => Same) == Ascending && Compared(middle, high, (a, b) => Same) == Ascending
  }

  lemma IncreasingExists()
    ensures Increasing(Major(1), Major(2), Major(3))
  {
    MajorIsVersion(1);
    MajorIsVersion(2);
    MajorIsVersion(3);
  }

  /** An update from low to high is on its way. */
  method DownloadUnderWay(isNumber: char -> bool, numeric: (string, string) -> Ordering, low: string, high: string)
      returns (store: UpdateStore)
    requires NumberTest(isNumber) && Exact(low) && Exact(high)
    requires Compared(low, high, (a, b) => Same) == Ascending
    ensures fresh(store) && store.Valid() && store.numeric == numeric && store.view.phase.Busy()
    ensures store.floors == Floors(Some(low), None) && store.view.current == low && !store.automatic
    ensures store.tasks == map[1 := DownloadTask(Manifest(high, low, ""))]
  {
    ExactIsLoose(low);
    ExactIsLoose(high);
    store := new UpdateStore(isNumber, numeric, false, Floors(None, None), low);
    var started := store.BeginCheck(0, true, true);
    var first := store.FinishCheck(0, Some(Manifest(high, low, "")), true, low);
    assert first == Offer;
    started := store.BeginDownload(1);
  }

  /** Standing can fail after an interruption: middle stays on offer once the package of high has been verified. */
  method OvertakenOffer(isNumber: char -> bool, numeric: (string, string) -> Ordering, low: string, middle: string,
                        high: string)
      returns (store: UpdateStore)
    requires NumberTest(isNumber) && Increasing(low, middle, high)
    ensures fresh(store) && store.Valid() && Disturbed(store.log) && !store.Standing()
    ensures store.view.manifest == Some(Manifest(middle, low, "")) && Verified(high) in store.log
  {
    ExactIsLoose(low);
    ExactIsLoose(middle);
    ExactIsLoose(high);
    store := DownloadUnderWay(isNumber, numeric, low, high);
    var started := store.BeginCheck(2, true, true);
    started := store.BeginCheck(3, true, true);
    var second := store.FinishCheck(3, Some(Manifest(middle, low, "")), true, low);
    assert second == Offer;
    store.FinishDownload(1, true);
  }
}
