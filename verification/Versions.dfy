/**
 The release version grammar on both sides of an update: the Go signer's validVersion
 (scripts/update-manifest.go) and the Swift verifier's parseVersion and compareVersions
 (clients/macos-menubar/UpdateSupport.swift).
 */
module Versions {
  import opened Optional
  import opened Decimal

  const MAX_PART := 999_999

  datatype Ordering = Ascending | Same | Descending

  // -------------------------------------------------------------------- the grammar

  predicate Undotted(part: string) { forall i :: 0 <= i < |part| ==> part[i] != '.' }

  ghost function Join(parts: seq<string>): (s: string)
    requires parts != []
  {
    if |parts| == 1 then parts[0] else parts[0] + "." + Join(parts[1..])
  }

  /** A version is exactly the printed form of its numbers. */
  ghost function Render(numbers: seq<nat>): (s: string)
    requires numbers != []
  {
    Join(seq(|numbers|, i requires 0 <= i < |numbers| => Itoa(numbers[i])))
  }

  ghost predicate Renders(value: string, numbers: seq<nat>, counts: set<nat>) {
    && |numbers| in counts && numbers != []
    && (forall i :: 0 <= i < |numbers| ==> numbers[i] <= MAX_PART)
    && value == Render(numbers)
  }

  ghost predicate IsVersion(value: string, counts: set<nat>) {
    exists numbers :: Renders(value, numbers, counts)
  }

  ghost function AnyOf(counts: seq<nat>): set<nat> { set c | c in counts }

  const EXACT: set<nat> := {3}
  const LOOSE: set<nat> := {2, 3}

  // ----------------------------------------------------------------------- splitting

  /** strings.Split on "." and Swift's split keeping empty parts. */
  function Split(s: string): (parts: seq<string>)
    ensures parts != []
  {
    if s == "" then [""]
    else
      var rest := Split(s[1..]);
      if s[0] == '.' then [""] + rest else [[s[0]] + rest[0]] + rest[1..]
  }

  lemma {:induction false} JoinOfSplit(s: string)
    ensures Join(Split(s)) == s
    ensures forall i :: 0 <= i < |Split(s)| ==> Undotted(Split(s)[i])
  {
    if s != "" {
      JoinOfSplit(s[1..]);
      var rest, parts := Split(s[1..]), Split(s);
      assert parts[1..] == if s[0] == '.' then rest else rest[1..];
      assert s == [s[0]] + s[1..];
    }
  }

  lemma {:induction false} SplitOfPart(part: string)
    requires Undotted(part)
    ensures Split(part) == [part]
  {
    if part != "" {
      SplitOfPart(part[1..]);
      assert part == [part[0]] + part[1..];
    }
  }

  lemma {:induction false} SplitAfterPart(part: string, tail: string)
    requires Undotted(part)
    ensures Split(part + "." + tail) == [part] + Split(tail)
  {
    var s := part + "." + tail;
    if part == "" {
      assert s[1..] == tail;
    } else {
      assert s[1..] == part[1..] + "." + tail;
      SplitAfterPart(part[1..], tail);
      assert part == [part[0]] + part[1..];
    }
  }

  lemma {:induction false} SplitOfJoin(parts: seq<string>)
    requires parts != [] && forall i :: 0 <= i < |parts| ==> Undotted(parts[i])
    ensures Split(Join(parts)) == parts
  {
    if |parts| == 1 {
      SplitOfPart(parts[0]);
    } else {
      SplitAfterPart(parts[0], Join(parts[1..]));
      SplitOfJoin(parts[1..]);
    }
  }

  /** Different numbers print differently, and splitting finds each printed number. */
  lemma SplitOfRender(numbers: seq<nat>)
    requires numbers != []
    ensures |Split(Render(numbers))| == |numbers|
    ensures forall i :: 0 <= i < |numbers| ==> Split(Render(numbers))[i] == Itoa(numbers[i])
  {
    var parts := seq(|numbers|, i requires 0 <= i < |numbers| => Itoa(numbers[i]));
    forall i | 0 <= i < |parts| ensures Undotted(parts[i]) {
      DigitsOfItoa(numbers[i]);
    }
    SplitOfJoin(parts);
  }

  /** A value that splits into printed numbers is their printed form. */
  lemma RenderOfSplit(value: string, numbers: seq<nat>)
    requires |numbers| == |Split(value)| && forall i :: 0 <= i < |numbers| ==> Split(value)[i] == Itoa(numbers[i])
    ensures value == Render(numbers)
  {
    JoinOfSplit(value);
    var parts := seq(|numbers|, i requires 0 <= i < |numbers| => Itoa(numbers[i]));
    assert parts == Split(value);
  }

  /** The numbers of a version are determined by its text. */
  lemma RenderInjective(a: seq<nat>, b: seq<nat>)
    requires a != [] && b != [] && Render(a) == Render(b)
    ensures a == b
  {
    SplitOfRender(a);
    SplitOfRender(b);
    forall i | 0 <= i < |a| ensures a[i] == b[i] {
      assert Split(Render(a))[i] == Itoa(a[i]) && Split(Render(b))[i] == Itoa(b[i]);
      ItoaInjective(a[i], b[i]);
    }
  }

  /** A part either side accepts: the printed form of a number up to MAX_PART. */
  ghost predicate GoodPart(part: string) {
    exists n: nat :: n <= MAX_PART && part == Itoa(n)
  }

  /** A version is a value with the right number of parts, all of them good. */
  lemma VersionParts(value: string, counts: set<nat>)
    ensures IsVersion(value, counts) <==>
            |Split(value)| in counts && forall i :: 0 <= i < |Split(value)| ==> GoodPart(Split(value)[i])
  {
    var parts := Split(value);
    if IsVersion(value, counts) {
      var numbers :| Renders(value, numbers, counts);
      SplitOfRender(numbers);
      assert forall i :: 0 <= i < |parts| ==> parts[i] == Itoa(numbers[i]);
    }
    if |parts| in counts && forall i :: 0 <= i < |parts| ==> GoodPart(parts[i]) {
      var numbers := seq(|parts|, i requires 0 <= i < |parts| => PartNumber(parts[i]));
      RenderOfSplit(value, numbers);
      assert Renders(value, numbers, counts);
    }
  }

  ghost function PartNumber(part: string): (n: nat)
    requires GoodPart(part)
    ensures n <= MAX_PART && part == Itoa(n)
  {
    var n: nat :| n <= MAX_PART && part == Itoa(n);
    n
  }

  // ---------------------------------------------------------------- the two checkers

  /** Six plain digits are the numbers up to MAX_PART: the signer's rule is the verifier's. */
  lemma GoodByLength(part: string)
    ensures GoodPart(part) <==> Plain(part) && |part| <= 6
  {
    if Plain(part) {
      ItoaOfDigits(part);
      ItoaLength(Digits(part, 0).value, 6);
    }
    if GoodPart(part) {
      var n := PartNumber(part);
      DigitsOfItoa(n);
      ItoaLength(n, 6);
    }
  }

  lemma GoodByValue(part: string)
    ensures GoodPart(part) <==> Plain(part) && Digits(part, 0).Some? && Digits(part, 0).value <= MAX_PART
  {
    if Plain(part) {
      ItoaOfDigits(part);
    }
    if GoodPart(part) {
      DigitsOfItoa(PartNumber(part));
    }
  }

  lemma {:induction false} ParsedAreDigits(s: string, acc: nat)
    ensures Digits(s, acc).Some? <==> AllDigits(s)
  {
    if s != "" && IsDigit(s[0]) {
      ParsedAreDigits(s[1..], acc * 10 + (s[0] - '0') as nat);
      assert forall i :: 0 < i < |s| ==> s[i] == s[1..][i - 1];
      assert AllDigits(s[1..]) <==> AllDigits(s);
    }
  }

  /** Go: the inner loop of validVersion over one part. */
  method GoPart(part: string) returns (ok: bool)
    ensures ok <==> GoodPart(part)
  {
    GoodByLength(part);
    if part == "" || |part| > 6 || (|part| > 1 && part[0] == '0') {
      return false;
    }
    for i := 0 to |part|
      invariant forall j :: 0 <= j < i ==> IsDigit(part[j])
    {
      if part[i] < '0' || part[i] > '9' {
        return false;
      }
    }
    return true;
  }

  /** Go: validVersion. */
  method ValidVersion(value: string, allowedCounts: seq<nat>) returns (ok: bool)
    ensures ok <==> IsVersion(value, AnyOf(allowedCounts))
  {
    VersionParts(value, AnyOf(allowedCounts));
    var parts := Split(value);
    var allowed := false;
    for i := 0 to |allowedCounts|
      invariant allowed <==> |parts| in allowedCounts[..i]
    {
      assert allowedCounts[..i + 1] == allowedCounts[..i] + [allowedCounts[i]];
      allowed := allowed || |parts| == allowedCounts[i];
    }
    assert allowedCounts[..|allowedCounts|] == allowedCounts;
    if !allowed {
      return false;
    }
    for i := 0 to |parts|
      invariant forall j :: 0 <= j < i ==> GoodPart(parts[j])
    {
      var good := GoPart(parts[i]);
      if !good {
        return false;
      }
    }
    return true;
  }

  /** What Character.isNumber is known to say: ASCII digits are numbers, signs are not; other scripts are left open. */
  ghost predicate NumberTest(isNumber: char -> bool) {
    && (forall c :: IsDigit(c) ==> isNumber(c))
    && !isNumber('+') && !isNumber('-')
  }

  /** Swift: the guard of parseVersion on one part. */
  method SwiftPart(part: string, isNumber: char -> bool) returns (r: Option<nat>)
    requires NumberTest(isNumber)
    ensures r.Some? <==> GoodPart(part)
    ensures r.Some? ==> part == Itoa(r.value) && r.value <= MAX_PART
  {
    GoodByValue(part);
    ParsedAreDigits(part, 0);
    if part == "" {
      return None;
    }
    if exists i :: 0 <= i < |part| && !isNumber(part[i]) {
      return None;
    }
    assert isNumber(part[0]);
    if |part| != 1 && part[0] == '0' {
      return None;
    }
    var number := Atoi(part);
    if number.None? || number.value > MAX_PART {
      return None;
    }
    ItoaOfDigits(part);
    return Some(number.value);
  }

  /** Swift: parseVersion. */
  method ParseVersion(value: string, exactSemver: bool, isNumber: char -> bool) returns (r: Option<seq<nat>>)
    requires NumberTest(isNumber)
    ensures r.Some? <==> IsVersion(value, if exactSemver then EXACT else LOOSE)
    ensures r.Some? ==> Renders(value, r.value, if exactSemver then EXACT else LOOSE)
  {
    VersionParts(value, if exactSemver then EXACT else LOOSE);
    var parts := Split(value);
    if (if exactSemver then |parts| != 3 else !(2 <= |parts| <= 3)) {
      return None;
    }
    var result: seq<nat> := [];
    for i := 0 to |parts|
      invariant |result| == i
      invariant forall j :: 0 <= j < i ==> parts[j] == Itoa(result[j]) && result[j] <= MAX_PART
      invariant forall j :: 0 <= j < i ==> GoodPart(parts[j])
    {
      var number := SwiftPart(parts[i], isNumber);
      if number.None? {
        return None;
      }
      result := result + [number.value];
    }
    RenderOfSplit(value, result);
    return Some(result);
  }

  /** The signer and the verifier accept exactly the same release versions and the same system versions. */
  method BothSides(value: string, exactSemver: bool, isNumber: char -> bool)
      returns (signed: bool, verified: Option<seq<nat>>)
    requires NumberTest(isNumber)
    ensures signed == verified.Some?
    ensures verified.Some? ==> Renders(value, verified.value, LOOSE)
  {
    var counts: seq<nat> := if exactSemver then [3] else [2, 3];
    assert AnyOf(counts) == if exactSemver then EXACT else LOOSE;
    signed := ValidVersion(value, counts);
    verified := ParseVersion(value, exactSemver, isNumber);
  }

  // ------------------------------------------------------------------------ the order

  ghost function Part(numbers: seq<nat>, i: nat): nat {
    if i < |numbers| then numbers[i] else 0
  }

  /** The rank of a version: its three parts, a missing one counting as zero, as digits to base one million. */
  ghost function Rank(numbers: seq<nat>): nat {
    (Part(numbers, 0) * 1_000_000 + Part(numbers, 1)) * 1_000_000 + Part(numbers, 2)
  }

  ghost function Numbers(value: string): (numbers: seq<nat>)
    requires IsVersion(value, LOOSE)
    ensures Renders(value, numbers, LOOSE)
  {
    var numbers :| Renders(value, numbers, LOOSE);
    numbers
  }

  ghost function RankOf(value: string): nat
    requires IsVersion(value, LOOSE)
  {
    Rank(Numbers(value))
  }

  ghost function ByRank(a: nat, b: nat): Ordering {
    if a < b then Ascending else if a > b then Descending else Same
  }

  /** The order compareVersions follows; numeric is Foundation's own comparison, for values outside the grammar. */
  ghost function Compared(lhs: string, rhs: string, numeric: (string, string) -> Ordering): Ordering {
    if IsVersion(lhs, LOOSE) && IsVersion(rhs, LOOSE) then ByRank(RankOf(lhs), RankOf(rhs)) else numeric(lhs, rhs)
  }

  lemma ExactIsLoose(value: string)
    requires IsVersion(value, EXACT)
    ensures IsVersion(value, LOOSE)
  {
    var numbers :| Renders(value, numbers, EXACT);
    assert Renders(value, numbers, LOOSE);
  }

  /** Swift: compareVersions. On versions it is comparison of ranks, so a total preorder. */
  method CompareVersions(lhs: string, rhs: string, isNumber: char -> bool, numeric: (string, string) -> Ordering)
      returns (r: Ordering)
    requires NumberTest(isNumber)
    ensures r == Compared(lhs, rhs, numeric)
  {
    var left := ParseVersion(lhs, false, isNumber);
    var right := ParseVersion(rhs, false, isNumber);
    if left.None? || right.None? {
      return numeric(lhs, rhs);
    }
    RenderInjective(left.value, Numbers(lhs));
    RenderInjective(right.value, Numbers(rhs));
    var count := if |left.value| < |right.value| then |right.value| else |left.value|;
    for index := 0 to count
      invariant forall i :: 0 <= i < index ==> Part(left.value, i) == Part(right.value, i)
    {
      var l := if index < |left.value| then left.value[index] else 0;
      var r := if index < |right.value| then right.value[index] else 0;
      assert l == Part(left.value, index) && r == Part(right.value, index);
      if l != r {
        FirstDifferenceDecides(left.value, right.value, index);
      }
      if l < r {
        return Ascending;
      }
      if l > r {
        return Descending;
      }
    }
    assert forall i: nat :: i >= count ==> Part(left.value, i) == 0 == Part(right.value, i);
    return Same;
  }

  lemma FirstDifferenceDecides(a: seq<nat>, b: seq<nat>, i: nat)
    requires i < 3 && forall j :: 0 <= j < 3 ==> Part(a, j) <= MAX_PART && Part(b, j) <= MAX_PART
    requires forall j :: 0 <= j < i ==> Part(a, j) == Part(b, j)
    requires Part(a, i) != Part(b, i)
    ensures Rank(a) < Rank(b) <==> Part(a, i) < Part(b, i)
    ensures Rank(a) != Rank(b)
  {
  }

  /** Two versions compare the same exactly when they differ at most in a trailing ".0". */
  lemma SameExactlyWhenPaddedEqual(lhs: string, rhs: string, numeric: (string, string) -> Ordering)
    requires IsVersion(lhs, LOOSE) && IsVersion(rhs, LOOSE)
    ensures Compared(lhs, rhs, numeric) == Same <==>
            forall i :: 0 <= i < 3 ==> Part(Numbers(lhs), i) == Part(Numbers(rhs), i)
  {
    var a, b := Numbers(lhs), Numbers(rhs);
    if i: nat :| i < 3 && Part(a, i) != Part(b, i) {
      var first := if Part(a, 0) != Part(b, 0) then 0 else if Part(a, 1) != Part(b, 1) then 1 else 2;
      FirstDifferenceDecides(a, b, first);
    }
  }
}
