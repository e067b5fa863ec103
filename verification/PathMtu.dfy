/**
 Path-MTU probing (internal/doctorplatform/pathmtu.go): the candidate grid and the
 quorum search over it.
 */
module PathMtu {
  import opened Optional

  const MAX_COMMANDS := 40
  const MAX_RANGE := 8192
  const MAX_VALUE := 65535
  const MAX_CANDIDATES := 12
  const SAMPLES := 3
  const IPV6_MINIMUM_MTU := 1280

  // --------------------------------------------------------------- grid arithmetic

  ghost predicate StrictlyIncreasing(s: seq<int>) {
    forall i, j :: 0 <= i < j < |s| ==> s[i] < s[j]
  }

  lemma LessFromProduct(a: int, b: int, m: int)
    requires m > 0 && a * m < b * m
    ensures a < b
  {
  }

  lemma QuotientAtLeast(q: nat, x: nat, m: nat)
    requires m > 0 && q * m <= x
    ensures q <= x / m
  {
    var d := x / m;
    assert x == d * m + x % m;
    assert (d + 1) * m == d * m + m;
    LessFromProduct(q, d + 1, m);
  }

  /** With a span of at least m, consecutive grid points differ. */
  lemma GridSteps(span: nat, i: nat, m: nat)
    requires 0 < m <= span
    ensures span * i / m < span * (i + 1) / m
  {
    var q := span * i / m;
    assert q * m <= span * i;
    assert (q + 1) * m == q * m + m;
    assert span * (i + 1) == span * i + span;
    QuotientAtLeast(q + 1, span * (i + 1), m);
  }

  /** Consecutive grid points are at most one more than the even step apart. */
  lemma GridGap(span: nat, i: nat, m: nat)
    requires m > 0
    ensures span * (i + 1) / m - span * i / m <= span / m + 1
  {
    var q, e := span * i / m, span / m;
    assert span * i < q * m + m && span < e * m + m;
    assert span * (i + 1) == span * i + span;
    var d := span * (i + 1) / m;
    assert d * m <= span * (i + 1);
    assert (q + e + 2) * m == q * m + e * m + m + m;
    LessFromProduct(d, q + e + 2, m);
  }

  ghost function Gap(s: seq<int>, i: nat): int
    requires i + 1 < |s|
  {
    s[i + 1] - s[i]
  }

  ghost predicate GapsWithin(s: seq<int>, most: int) {
    forall i: nat :: i + 1 < |s| ==> Gap(s, i) <= most
  }

  lemma GridEnds(span: nat, m: nat)
    requires m > 0
    ensures span * 0 / m == 0 && span * m / m == span
  {
    QuotientAtLeast(span, span * m, m);
    var d := span * m / m;
    assert d * m <= span * m;
    assert (span + 1) * m == span * m + m;
    LessFromProduct(d, span + 1, m);
  }

  /** A grid as fine as the span steps by one. */
  lemma UnitGrid(span: nat, i: nat)
    requires span > 0
    ensures span * i / span == i
  {
    GridEnds(i, span);
    assert span * i == i * span;
  }

  /** The evenly spaced grid, in the order it is appended. */
  method Grid(low: int, high: int, count: nat) returns (candidates: seq<int>)
    requires low < high && 2 <= count <= high - low + 1
    ensures |candidates| == count && StrictlyIncreasing(candidates)
    ensures candidates[0] == low && candidates[count - 1] == high
    ensures count == high - low + 1 ==> forall i :: 0 <= i < count ==> candidates[i] == low + i
    ensures GapsWithin(candidates, (high - low) / (count - 1) + 1)
  {
    candidates := [];
    var span, m := high - low, count - 1;
    GridEnds(span, m);
    for index := 0 to count
      invariant |candidates| == index && StrictlyIncreasing(candidates)
      invariant forall i :: 0 <= i < index ==> candidates[i] == low + span * i / m
      invariant m == span ==> forall i :: 0 <= i < index ==> candidates[i] == low + i
      invariant GapsWithin(candidates, span / m + 1)
    {
      var candidate := low + span * index / m;
      if index > 0 {
        GridSteps(span, index - 1, m);
        GridGap(span, index - 1, m);
      }
      ghost var before := candidates;
      if m == span { UnitGrid(span, index); }
      if |candidates| == 0 || candidates[|candidates| - 1] != candidate {
        candidates := candidates + [candidate];
      }
      forall i: nat | i + 1 < |candidates| ensures Gap(candidates, i) <= span / m + 1 {
        assert i + 1 < |before| ==> Gap(candidates, i) == Gap(before, i);
      }
    }
  }

  // ------------------------------------------------------------------- sorting

  ghost predicate NonDecreasing(s: seq<int>) {
    forall i, j :: 0 <= i < j < |s| ==> s[i] <= s[j]
  }

  /** slices.Sort, by insertion; a list already in strict order is left as it is. */
  method Sort(s: seq<int>) returns (out: seq<int>)
    ensures NonDecreasing(out) && multiset(out) == multiset(s)
    ensures StrictlyIncreasing(s) ==> out == s
  {
    out := [];
    for n := 0 to |s|
      invariant NonDecreasing(out) && multiset(out) == multiset(s[..n])
      invariant StrictlyIncreasing(s) ==> out == s[..n]
    {
      assert s[..n + 1] == s[..n] + [s[n]];
      out := InsertSorted(out, s[n]);
    }
    assert s[..|s|] == s;
  }

  method InsertSorted(s: seq<int>, x: int) returns (out: seq<int>)
    requires NonDecreasing(s)
    ensures NonDecreasing(out) && multiset(out) == multiset(s) + multiset{x}
    ensures (forall i :: 0 <= i < |s| ==> s[i] < x) ==> out == s + [x]
  {
    var i := |s|;
    while i > 0 && s[i - 1] > x
      invariant 0 <= i <= |s|
      invariant forall j :: i <= j < |s| ==> s[j] > x
    {
      i := i - 1;
    }
    out := s[..i] + [x] + s[i..];
    InsertedOnce(s, i, x);
    assert i < |s| ==> s[i] > x;
  }

  lemma InsertedOnce(s: seq<int>, i: nat, x: int)
    requires i <= |s|
    ensures multiset(s[..i] + [x] + s[i..]) == multiset(s) + multiset{x}
    ensures i == |s| ==> s[..i] + [x] + s[i..] == s + [x]
  {
    assert s == s[..i] + s[i..];
  }

  // ---------------------------------------------------------------- candidates

  function Abs(value: int): nat { if value < 0 then -value else value }

  /** The interior grid point closest to x. */
  method NearestInterior(candidates: seq<int>, x: int) returns (replace: nat)
    requires |candidates| >= 3
    ensures 1 <= replace < |candidates| - 1
    ensures forall i :: 1 <= i < |candidates| - 1 ==> Abs(candidates[replace] - x) <= Abs(candidates[i] - x)
  {
    replace := 1;
    var bestDistance := Abs(candidates[replace] - x);
    for index := 2 to |candidates| - 1
      invariant 1 <= replace < |candidates| - 1 && bestDistance == Abs(candidates[replace] - x)
      invariant forall i :: 1 <= i < index ==> bestDistance <= Abs(candidates[i] - x)
    {
      var distance := Abs(candidates[index] - x);
      if distance < bestDistance {
        replace, bestDistance := index, distance;
      }
    }
  }

  /** Some two neighbours enclose x. */
  lemma Enclosed(s: seq<int>, x: int) returns (k: nat)
    requires |s| >= 2 && s[0] <= x < s[|s| - 1]
    ensures k + 1 < |s| && s[k] <= x < s[k + 1]
  {
    k := 0;
    while s[k + 1] <= x
      invariant k + 1 < |s| && s[k] <= x
      decreases |s| - k
    {
      k := k + 1;
    }
  }

  lemma NearestIsNear(candidates: seq<int>, replace: nat, x: int, most: int)
    requires |candidates| >= 3 && GapsWithin(candidates, most) && 1 <= replace < |candidates| - 1
    requires candidates[0] < x < candidates[|candidates| - 1]
    requires forall i :: 1 <= i < |candidates| - 1 ==> Abs(candidates[replace] - x) <= Abs(candidates[i] - x)
    ensures Abs(candidates[replace] - x) <= most
  {
    var k := Enclosed(candidates, x);
    assert Gap(candidates, k) <= most;
    var near := if k >= 1 then k else 1;
    assert Abs(candidates[replace] - x) <= Abs(candidates[near] - x);
  }

  lemma ReplaceKeepsGaps(candidates: seq<int>, replace: nat, x: int, most: int)
    requires GapsWithin(candidates, most) && 1 <= replace < |candidates| - 1 && Abs(candidates[replace] - x) <= most
    requires StrictlyIncreasing(candidates)
    ensures GapsWithin(candidates[replace := x], 2 * most)
  {
    var replaced := candidates[replace := x];
    assert Gap(candidates, replace - 1) <= most && candidates[replace - 1] < candidates[replace];
    forall i: nat | i + 1 < |replaced| ensures Gap(replaced, i) <= 2 * most {
      assert Gap(candidates, i) <= most;
    }
  }

  /** Replacing the nearest interior point by a value between the ends keeps the order. */
  lemma ReplaceKeepsOrder(candidates: seq<int>, replace: nat, x: int)
    requires StrictlyIncreasing(candidates) && 1 <= replace < |candidates| - 1
    requires candidates[0] < x < candidates[|candidates| - 1] && x !in candidates
    requires forall i :: 1 <= i < |candidates| - 1 ==> Abs(candidates[replace] - x) <= Abs(candidates[i] - x)
    ensures candidates[replace - 1] < x < candidates[replace + 1]
    ensures StrictlyIncreasing(candidates[replace := x])
  {
    assert candidates[replace - 1] < candidates[replace] < candidates[replace + 1];
    assert candidates[replace - 1] in candidates && candidates[replace + 1] in candidates;
    var replaced := candidates[replace := x];
    forall i, j | 0 <= i < j < |replaced| ensures replaced[i] < replaced[j] {
      if i == replace {
        assert candidates[replace + 1] <= candidates[j];
      } else if j == replace {
        assert candidates[i] <= candidates[replace - 1];
      }
    }
  }

  /** Twice the even step of a full grid, which is what making room for 1280 may cost. */
  ghost function MostGap(low: int, high: int): int { 2 * ((high - low) / 11 + 1) }

  /** A strictly increasing grid over [low, high] with both ends, and no gap too wide. */
  ghost predicate GoodGrid(candidates: seq<int>, low: int, high: int) {
    && StrictlyIncreasing(candidates) && 1 <= |candidates| <= 12
    && candidates[0] == low && candidates[|candidates| - 1] == high
    && (forall c :: c in candidates ==> low <= c <= high)
    && GapsWithin(candidates, MostGap(low, high))
  }

  /** pathMTUCandidates: a good grid of at most 12 values that has 1280 whenever that is in range. */
  method PathMTUCandidates(low: int, high: int) returns (candidates: seq<int>)
    requires 0 < low <= high
    ensures GoodGrid(candidates, low, high)
    ensures |candidates| == if high - low + 1 < 12 then high - low + 1 else 12
    ensures low <= 1280 <= high ==> 1280 in candidates
  {
    if low == high {
      return [low];
    }
    var count := MAX_CANDIDATES;
    if high - low + 1 < count {
      count := high - low + 1;
    }
    candidates := Grid(low, high, count);
    GridIsGood(candidates, low, high);
    if low < IPV6_MINIMUM_MTU < high && IPV6_MINIMUM_MTU !in candidates {
      if |candidates| < MAX_CANDIDATES {
        // A shorter grid holds every value of the range, so nothing can be missing from it.
        assert false;
      } else {
        var replace := NearestInterior(candidates, IPV6_MINIMUM_MTU);
        ReplacedIsGood(candidates, replace, low, high);
        candidates := candidates[replace := IPV6_MINIMUM_MTU];
        assert candidates[replace] in candidates;
      }
      candidates := Sort(candidates);
    }
  }

  lemma GridIsGood(candidates: seq<int>, low: int, high: int)
    requires low < high && 2 <= |candidates| <= 12 && StrictlyIncreasing(candidates)
    requires candidates[0] == low && candidates[|candidates| - 1] == high
    requires GapsWithin(candidates, (high - low) / (|candidates| - 1) + 1)
    requires |candidates| < 12 ==>
               |candidates| == high - low + 1 && forall i :: 0 <= i < |candidates| ==> candidates[i] == low + i
    ensures GoodGrid(candidates, low, high) && GapsWithin(candidates, (high - low) / 11 + 1)
    ensures |candidates| < 12 && low < 1280 < high ==> 1280 in candidates
  {
    if |candidates| < 12 {
      assert forall i: nat :: i + 1 < |candidates| ==> Gap(candidates, i) == 1;
      assert low < 1280 < high ==> candidates[1280 - low] == 1280;
    }
    assert candidates[0] in candidates && candidates[|candidates| - 1] in candidates;
  }

  lemma ReplacedIsGood(candidates: seq<int>, replace: nat, low: int, high: int)
    requires GoodGrid(candidates, low, high) && GapsWithin(candidates, (high - low) / 11 + 1)
    requires low < 1280 < high && 1280 !in candidates && 1 <= replace < |candidates| - 1
    requires forall i :: 1 <= i < |candidates| - 1 ==> Abs(candidates[replace] - 1280) <= Abs(candidates[i] - 1280)
    ensures GoodGrid(candidates[replace := 1280], low, high)
  {
    ReplaceKeepsOrder(candidates, replace, 1280);
    NearestIsNear(candidates, replace, 1280, (high - low) / 11 + 1);
    ReplaceKeepsGaps(candidates, replace, 1280, (high - low) / 11 + 1);
  }

  // --------------------------------------------------------------------- probing

  /** What one probe command, or the context around it, can do; a failure without a kind of its own is Unavailable. */
  datatype Sample = Fits | TooLarge | Indeterminate | TimedOut | ProbeFailed(kind: ErrorKind) | ContextDone

  datatype Verdict = Fit | ExplicitTooLarge | Inconclusive

  datatype ErrorKind = Invalid | Unavailable | Oversized | Interrupted

  datatype Outcome = MTU(value: int) | Failed(kind: ErrorKind)

  /** One classified candidate: which commands it used and what they said. */
  datatype Classified = Classified(mtu: int, first: nat, fit: nat, tooLarge: nat, verdict: Verdict)

  /** The counts are what the three commands answered, and a quorum is two of them. */
  ghost predicate WellClassified(c: Classified, runner: (nat, int) -> Sample) {
    && c.fit == Count(Fits, c.mtu, c.first, c.first + SAMPLES, runner)
    && c.tooLarge == Count(TooLarge, c.mtu, c.first, c.first + SAMPLES, runner)
    && (c.verdict == Fit <==> c.fit >= 2)
    && (c.verdict == ExplicitTooLarge <==> c.fit < 2 && c.tooLarge >= 2)
  }

  /** classify: three samples of one size. The command limit is never the reason it stops. */
  method Classify(mtu: int, commands: nat, runner: (nat, int) -> Sample, expired: nat -> bool)
      returns (c: Classified, error: seq<ErrorKind>, used: nat)
    requires commands + SAMPLES < MAX_COMMANDS
    ensures commands <= used <= commands + SAMPLES
    ensures |error| <= 1 && (Oversized in error ==> Reported(runner, Oversized))
    ensures Undisturbed(runner, expired) ==> error == []
    ensures error == [] ==>
              used == commands + SAMPLES && c.mtu == mtu && c.first == commands && WellClassified(c, runner)
  {
    var fit: nat, tooLarge: nat := 0, 0;
    used := commands;
    c := Classified(mtu, commands, 0, 0, Inconclusive);
    for sample := 0 to SAMPLES
      invariant used == commands + sample
      invariant fit == Count(Fits, mtu, commands, used, runner)
                && tooLarge == Count(TooLarge, mtu, commands, used, runner)
    {
      if expired(used) {
        return c, [Interrupted], used;
      }
      if used >= MAX_COMMANDS {
        assert false;
      }
      used := used + 1;
      var said := runner(used - 1, mtu);
      match said {
        case ContextDone => return c, [Interrupted], used;
        case ProbeFailed(kind) => return c, [kind], used;
        case TimedOut =>
        case Indeterminate =>
        case Fits => fit := fit + 1;
        case TooLarge => tooLarge := tooLarge + 1;
      }
    }
    var quorum := SAMPLES / 2 + 1;
    var verdict := if fit >= quorum then Fit else if tooLarge >= quorum then ExplicitTooLarge else Inconclusive;
    return Classified(mtu, commands, fit, tooLarge, verdict), [], used;
  }

  /** How many of the commands first, ..., next - 1, sent for this size, were answered so. */
  ghost function Count(said: Sample, mtu: int, first: nat, next: nat, runner: (nat, int) -> Sample): nat
    requires first <= next
  {
    if first == next then 0
    else Count(said, mtu, first, next - 1, runner) + (if runner(next - 1, mtu) == said then 1 else 0)
  }

  /** Some command failed with this kind of error. */
  ghost predicate Reported(runner: (nat, int) -> Sample, kind: ErrorKind) {
    exists k, mtu :: runner(k, mtu) == ProbeFailed(kind)
  }

  /** Nothing interrupts the run: every command answers and the context lives on. */
  ghost predicate Undisturbed(runner: (nat, int) -> Sample, expired: nat -> bool) {
    && (forall k :: !expired(k))
    && (forall k, mtu :: !runner(k, mtu).ContextDone? && !runner(k, mtu).ProbeFailed?)
  }

  /** A path that passes exactly the packets up to limit. */
  ghost predicate PathLimit(runner: (nat, int) -> Sample, limit: int) {
    forall k, mtu :: runner(k, mtu) == if mtu <= limit then Fits else TooLarge
  }

  /** On such a path a candidate wins its quorum exactly when it is within the limit. */
  lemma LimitDecides(c: Classified, runner: (nat, int) -> Sample, limit: int)
    requires PathLimit(runner, limit) && WellClassified(c, runner)
    ensures c.verdict == Fit <==> c.mtu <= limit
  {
    var k := c.first;
    assert Count(Fits, c.mtu, k, k, runner) == 0;
    assert Count(Fits, c.mtu, k, k + 1, runner) == if runner(k, c.mtu) == Fits then 1 else 0;
    assert Count(Fits, c.mtu, k, k + 2, runner)
        == Count(Fits, c.mtu, k, k + 1, runner) + (if runner(k + 1, c.mtu) == Fits then 1 else 0);
    assert Count(Fits, c.mtu, k, k + 3, runner)
        == Count(Fits, c.mtu, k, k + 2, runner) + (if runner(k + 2, c.mtu) == Fits then 1 else 0);
  }

  /** The environment of a probe run, reduced to what decides it. */
  datatype Setup = Setup(callable: bool, destinationOK: bool, supported: bool, contextOK: bool, resolves: bool,
                         v4: bool, windows: bool)

  function Overhead(v4: bool): int { if v4 then 28 else 48 }

  /** The candidates were scanned from the smallest up, three commands each, until the budget ran out. */
  ghost predicate Scanned(log: seq<Classified>, candidates: seq<int>, runner: (nat, int) -> Sample) {
    && |log| <= |candidates|
    && forall i :: 0 <= i < |log| ==>
         log[i].mtu == candidates[i] && log[i].first == SAMPLES * i && WellClassified(log[i], runner)
  }

  /** best is the largest classified candidate that won its quorum; -1 when none did. */
  ghost predicate BestOf(best: int, log: seq<Classified>) {
    && (best >= 0 ==> exists i :: 0 <= i < |log| && log[i].mtu == best && log[i].verdict == Fit)
    && (forall i :: 0 <= i < |log| && log[i].verdict == Fit ==> log[i].mtu <= best)
  }

  lemma BestOneMore(best: int, log: seq<Classified>, c: Classified)
    requires BestOf(best, log) && c.mtu >= 0
    ensures c.verdict != Fit ==> BestOf(best, log + [c])
    ensures c.verdict == Fit && best < c.mtu ==> BestOf(c.mtu, log + [c])
  {
    var longer := log + [c];
    assert longer[|log|] == c;
    if best >= 0 {
      var i :| 0 <= i < |log| && log[i].mtu == best && log[i].verdict == Fit;
      assert longer[i] == log[i];
    }
  }

  /** The scan over the grid. */
  method Scan(candidates: seq<int>, runner: (nat, int) -> Sample, expired: nat -> bool, hasBudget: nat -> bool)
      returns (best: int, used: nat, error: seq<ErrorKind>, log: seq<Classified>)
    requires StrictlyIncreasing(candidates) && |candidates| <= MAX_CANDIDATES
    requires forall c :: c in candidates ==> c > 0
    ensures Scanned(log, candidates, runner) && |error| <= 1 && (Oversized in error ==> Reported(runner, Oversized))
    ensures Undisturbed(runner, expired) ==> error == []
    ensures used <= SAMPLES * MAX_CANDIDATES
    ensures error == [] ==> used == SAMPLES * |log| && BestOf(best, log)
    ensures error == [] && |log| < |candidates| ==> !hasBudget(|log|)
  {
    best, used, error, log := -1, 0, [], [];
    for i := 0 to |candidates|
      invariant |log| == i && Scanned(log, candidates, runner) && used == SAMPLES * i && error == []
      invariant BestOf(best, log)
      invariant best >= 0 ==> exists k :: 0 <= k < i && candidates[k] == best
    {
      if !hasBudget(i) {
        break;
      }
      var c, err, now := Classify(candidates[i], used, runner, expired);
      used := now;
      if err != [] {
        error := err;
        return;
      }
      assert candidates[i] in candidates;
      BestOneMore(best, log, c);
      log := log + [c];
      if c.verdict == Fit {
        best := candidates[i];
      }
    }
  }

  predicate SensibleRange(low: int, high: int) { 0 < low <= high <= 65535 && high - low <= 8192 }

  /** The request is a sensible one and the platform can serve it. */
  predicate Ready(setup: Setup, low: int, high: int) {
    && setup.callable && setup.destinationOK && setup.supported && setup.contextOK && setup.resolves
    && (if setup.v4 then 28 else 48) < low <= high <= 65535 && high - low <= 8192 && (setup.windows ==> setup.v4)
  }

  /** The answer is within the limit and near it, exact at the top, and not below 1280 when 1280 passes. */
  ghost predicate Measures(outcome: Outcome, low: int, high: int, limit: int) {
    && outcome.MTU? && low <= outcome.value <= limit && (high <= limit ==> outcome.value == high)
    && (low <= 1280 <= high && 1280 <= limit ==> 1280 <= outcome.value)
    && (limit < high ==> limit - outcome.value < MostGap(low, high))
  }

  /** A complete scan of a path with a limit finds the largest candidate within it. */
  lemma ScanFindsLimit(best: int, log: seq<Classified>, candidates: seq<int>, runner: (nat, int) -> Sample, limit: int,
                       c: int)
    requires Scanned(log, candidates, runner) && BestOf(best, log) && |log| == |candidates| && PathLimit(runner, limit)
    requires c in candidates && 0 < c <= limit
    ensures c <= best <= limit
  {
    var i :| 0 <= i < |candidates| && candidates[i] == c;
    LimitDecides(log[i], runner, limit);
    var k :| 0 <= k < |log| && log[k].mtu == best && log[k].verdict == Fit;
    LimitDecides(log[k], runner, limit);
  }

  /** So its best is a good measure of the limit. */
  lemma ScanMeasures(best: int, log: seq<Classified>, candidates: seq<int>, low: int, high: int,
                     runner: (nat, int) -> Sample, limit: int)
    requires Scanned(log, candidates, runner) && BestOf(best, log) && |log| == |candidates| && PathLimit(runner, limit)
    requires 0 < low <= limit && GoodGrid(candidates, low, high)
    requires low <= 1280 <= high ==> 1280 in candidates
    ensures Measures(MTU(best), low, high, limit)
  {
    assert candidates[0] in candidates && candidates[|candidates| - 1] in candidates;
    ScanFindsLimit(best, log, candidates, runner, limit, low);
    if low <= 1280 <= high && 1280 <= limit {
      ScanFindsLimit(best, log, candidates, runner, limit, 1280);
    }
    if high <= limit {
      ScanFindsLimit(best, log, candidates, runner, limit, high);
      var k :| 0 <= k < |log| && log[k].mtu == best && log[k].verdict == Fit;
      assert candidates[k] in candidates;
    } else {
      var k := Enclosed(candidates, limit);
      assert candidates[k] in candidates && Gap(candidates, k) <= MostGap(low, high);
      ScanFindsLimit(best, log, candidates, runner, limit, candidates[k]);
    }
  }

  /** Why a request is refused before any probe; None when it is not. */
  function Refusal(setup: Setup, low: int, high: int): (r: Option<ErrorKind>)
    ensures r.None? <==> Ready(setup, low, high)
    ensures !setup.callable || !setup.destinationOK || !SensibleRange(low, high) ==> r == Some(Invalid)
    ensures r != Some(Oversized)
  {
    if !setup.callable || !setup.destinationOK then Some(Invalid)
    else if low <= 0 || high < low || high > MAX_VALUE || high - low > MAX_RANGE then Some(Invalid)
    else if !setup.supported then Some(Unavailable)
    else if !setup.contextOK then Some(Interrupted)
    else if !setup.resolves then Some(Unavailable)
    else if low <= Overhead(setup.v4) then Some(Invalid)
    else if setup.windows && !setup.v4 then Some(Unavailable)
    else None
  }

  /**
   ProbeMTU. At most 39 commands are issued, so the limit of 40 is never what stops it; a returned MTU won a quorum
   in the scan and another, over later commands, in the recheck, and no larger classified candidate won one.
   */
  method ProbeMTU(setup: Setup, low: int, high: int, runner: (nat, int) -> Sample, expired: nat -> bool,
                  hasBudget: nat -> bool)
      returns (outcome: Outcome, commands: nat, log: seq<Classified>)
    ensures commands <= 39 < MAX_COMMANDS
    ensures outcome == Failed(Oversized) ==> Reported(runner, Oversized)
    ensures outcome.MTU? ==> low <= outcome.value <= high && Confirmed(outcome.value, log, runner)
    ensures !setup.callable || !setup.destinationOK || !SensibleRange(low, high) ==>
              outcome == Failed(Invalid) && commands == 0
    ensures !Ready(setup, low, high) ==> outcome.Failed? && commands == 0
    ensures Ready(setup, low, high) && Undisturbed(runner, expired) && (forall k :: hasBudget(k)) ==>
              forall limit :: PathLimit(runner, limit) && low <= limit ==> Measures(outcome, low, high, limit)
  {
    var refusal := Refusal(setup, low, high);
    if refusal.Some? {
      return Failed(refusal.value), 0, [];
    }
    outcome, commands, log := Search(low, high, runner, expired, hasBudget);
  }

  /** The last classified entry and an earlier one, over earlier commands, both won for value; no larger one won. */
  ghost predicate Confirmed(value: int, log: seq<Classified>, runner: (nat, int) -> Sample) {
    var n := |log| - 1;
    && n >= 1 && log[n].mtu == value && log[n].verdict == Fit && WellClassified(log[n], runner)
    && (exists i :: 0 <= i < n && log[i].mtu == value && log[i].verdict == Fit
                    && WellClassified(log[i], runner) && log[i].first + SAMPLES <= log[n].first)
    && (forall i :: 0 <= i < n && log[i].verdict == Fit ==> log[i].mtu <= value)
  }

  /** The scan of the grid and the recheck of its best candidate. */
  method Search(low: int, high: int, runner: (nat, int) -> Sample, expired: nat -> bool, hasBudget: nat -> bool)
      returns (outcome: Outcome, commands: nat, log: seq<Classified>)
    requires 0 < low <= high
    ensures commands <= 39
    ensures outcome == Failed(Oversized) ==> Reported(runner, Oversized)
    ensures outcome.MTU? ==> low <= outcome.value <= high && Confirmed(outcome.value, log, runner)
    ensures Undisturbed(runner, expired) && (forall k :: hasBudget(k)) ==>
              forall limit :: PathLimit(runner, limit) && low <= limit ==> Measures(outcome, low, high, limit)
  {
    var candidates := PathMTUCandidates(low, high);
    var best, used, error, scanned := Scan(candidates, runner, expired, hasBudget);
    forall limit | PathLimit(runner, limit) && error == [] && |scanned| == |candidates| && low <= limit
      ensures Measures(MTU(best), low, high, limit)
    {
      ScanMeasures(best, scanned, candidates, low, high, runner, limit);
    }
    commands, log := used, scanned;
    if error != [] {
      return Failed(error[0]), commands, log;
    }
    if best < 0 {
      return Failed(Unavailable), commands, log;
    }
    ghost var i :| 0 <= i < |scanned| && scanned[i].mtu == best && scanned[i].verdict == Fit;
    assert candidates[i] in candidates;
    var c, err, now := Classify(best, commands, runner, expired);
    commands := now;
    if err != [] {
      return Failed(err[0]), commands, log;
    }
    forall limit | PathLimit(runner, limit) ensures c.verdict == Fit <==> best <= limit {
      LimitDecides(c, runner, limit);
    }
    log := log + [c];
    assert log[i] == scanned[i];
    if c.verdict != Fit {
      return Failed(Unavailable), commands, log;
    }
    return MTU(best), commands, log;
  }
}
