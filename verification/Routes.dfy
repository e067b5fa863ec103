/**
 Longest-prefix route coverage (internal/diagnose/probes_common.go).

 The coverage walk splits the address space bit by bit and never looks at a single
 address. The specification below does the opposite: it looks every address up by
 longest match and takes the worst answer. The methods are the code; each is proved
 against the address-by-address specification, for every table and every width.
 */
module Routes {

  // ---------------------------------------------------------------- data model

  /** An address is its bits, most significant first; the empty one is netip's invalid Addr. */
  type Bits = seq<bool>

  /** An address family is named by its width, so that every result holds for any width. */
  type AddressFamily = nat

  const FAMILY_V4: AddressFamily := 32
  const FAMILY_V6: AddressFamily := 128

  datatype RawPrefix = Prefix(addr: Bits, bits: int) {
    predicate IsValid() { |addr| > 0 && bits >= 0 }

    predicate Contains(a: Bits)
      requires bits <= |addr|
    {
      IsValid() && |a| == |addr| && a[..bits] == addr[..bits]
    }

    /** The prefix with its host bits cleared; an invalid one masks to the zero Prefix. */
    function Masked(): (p: Prefix)
      requires -1 <= bits <= |addr|
    {
      if IsValid() then Prefix(addr[..bits] + seq(|addr| - bits, _ => false), bits) else ZERO_PREFIX
    }
  }

  /** netip.Prefix keeps Bits() within -1 (invalid) and the address width. */
  type Prefix = p: RawPrefix | -1 <= p.bits <= |p.addr| witness Prefix([], -1)

  const ZERO_PREFIX: Prefix := Prefix([], -1)

  lemma WidthBound(p: Prefix)
    ensures p.bits <= |p.addr|
  {
  }

  datatype RouteKind = KindUnspecified | KindPhysical | KindTunnel | KindBlackhole | KindOther(name: string)

  /** What a route does with traffic, once its kind is resolved. */
  datatype Disposition = Safe | Physical | Unclassified

  datatype Route = Route(destination: Prefix, viaTunnel: bool, kind: RouteKind) {
    /** Only an unspecified kind may consult the legacy ViaTunnel bit. */
    function Disposition(): Disposition {
      match kind
      case KindTunnel | KindBlackhole => Safe
      case KindPhysical => Physical
      case KindUnspecified => if viaTunnel then Safe else Physical
      case KindOther(_) => Unclassified
    }

    predicate InFamily(fam: AddressFamily) {
      |destination.addr| > 0 && |destination.addr| == fam
    }
  }

  datatype Coverage = Contained | Unknown | PhysicalEscape {
    /** The lattice contained < unknown < escape. */
    function Rank(): nat {
      match this case Contained => 0 case Unknown => 1 case PhysicalEscape => 2
    }
  }

  // ------------------------------------------------------------- specification

  /** r is a candidate for address a. */
  ghost predicate Matches(r: Route, a: Bits) {
    r.destination.Contains(a)
  }

  /** Some candidate for a has exactly b prefix bits. */
  ghost predicate AnyAt(routes: seq<Route>, a: Bits, b: int) {
    exists r :: r in routes && Matches(r, a) && r.destination.bits == b
  }

  /** Some candidate for a with exactly b prefix bits has disposition d. */
  ghost predicate SomeAt(routes: seq<Route>, a: Bits, b: int, d: Disposition) {
    exists r :: r in routes && Matches(r, a) && r.destination.bits == b && r.Disposition() == d
  }

  /** How the routes for a at one prefix length read together, fail-closed. */
  ghost function VerdictAt(routes: seq<Route>, a: Bits, b: int): Coverage {
    if SomeAt(routes, a, b, Physical) then
      if SomeAt(routes, a, b, Safe) then Unknown else PhysicalEscape
    else if SomeAt(routes, a, b, Unclassified) then Unknown
    else Contained
  }

  /** Longest match for a among lengths b, b-1, ..., lo; inherited when none matches. */
  ghost function LookUp(routes: seq<Route>, a: Bits, b: int, lo: nat, inherited: Coverage): Coverage
    decreases b + 1
  {
    if b < lo then inherited
    else if AnyAt(routes, a, b) then VerdictAt(routes, a, b)
    else LookUp(routes, a, b - 1, lo, inherited)
  }

  /** What the routing table does with address a. */
  ghost function Resolve(routes: seq<Route>, a: Bits): Coverage {
    LookUp(routes, a, |a|, 0, Unknown)
  }

  /** c is the worst answer over the addresses of scope, for routes within that scope. */
  ghost predicate IsWorstWithin(c: Coverage, routes: seq<Route>, scope: Prefix, inherited: Coverage)
    requires scope.bits >= 0
  {
    && (forall a: Bits :: scope.Contains(a) ==> LookUp(routes, a, |a|, scope.bits, inherited).Rank() <= c.Rank())
    && (exists a: Bits :: scope.Contains(a) && LookUp(routes, a, |a|, scope.bits, inherited) == c)
  }

  /** c is the worst answer over every address of the family. */
  ghost predicate IsWorst(c: Coverage, routes: seq<Route>, fam: AddressFamily) {
    && (forall a: Bits :: |a| == fam ==> Resolve(routes, a).Rank() <= c.Rank())
    && (exists a: Bits :: |a| == fam && Resolve(routes, a) == c)
  }

  /** Some route with at least lo bits is a candidate for a. */
  ghost predicate CoveredFrom(routes: seq<Route>, a: Bits, lo: int) {
    exists r :: r in routes && Matches(r, a) && r.destination.bits >= lo
  }

  /** Some route is a candidate for a. */
  ghost predicate Covered(routes: seq<Route>, a: Bits) {
    CoveredFrom(routes, a, 0)
  }

  /** Every address of scope has a candidate of at least lo bits. */
  ghost predicate TiledFrom(routes: seq<Route>, scope: Prefix, lo: int) {
    forall a: Bits :: scope.Contains(a) ==> CoveredFrom(routes, a, lo)
  }

  // -------------------------------------------------- the specification is LPM

  /** Resolve really is a longest match: the verdict at the longest candidate's length. */
  lemma ResolveIsLongestMatch(routes: seq<Route>, a: Bits, r: Route)
    requires r in routes && Matches(r, a)
    requires forall s :: s in routes && Matches(s, a) ==> s.destination.bits <= r.destination.bits
    ensures Resolve(routes, a) == VerdictAt(routes, a, r.destination.bits)
  {
    LookUpStopsAt(routes, a, |a|, r);
  }

  lemma {:induction false} LookUpStopsAt(routes: seq<Route>, a: Bits, b: int, r: Route)
    requires r in routes && Matches(r, a) && r.destination.bits <= b
    requires forall s :: s in routes && Matches(s, a) ==> s.destination.bits <= r.destination.bits
    ensures LookUp(routes, a, b, 0, Unknown) == VerdictAt(routes, a, r.destination.bits)
    decreases b
  {
    if r.destination.bits < b {
      LookUpStopsAt(routes, a, b - 1, r);
    }
  }

  /** No candidate at all: the address is unknown, never contained. */
  lemma {:induction false} LookUpUncovered(routes: seq<Route>, a: Bits, b: int, lo: nat, inherited: Coverage)
    requires !Covered(routes, a)
    ensures LookUp(routes, a, b, lo, inherited) == inherited
    decreases b + 1
  {
    if b >= lo {
      LookUpUncovered(routes, a, b - 1, lo, inherited);
    }
  }

  /** Only which routes are present matters, not their order or multiplicity. */
  lemma {:induction false} LookUpIgnoresOrder(xs: seq<Route>, ys: seq<Route>, a: Bits, b: int, lo: nat,
                                              inherited: Coverage)
    requires forall r :: r in xs && Matches(r, a) <==> r in ys && Matches(r, a)
    ensures LookUp(xs, a, b, lo, inherited) == LookUp(ys, a, b, lo, inherited)
    decreases b + 1
  {
    if b >= lo {
      assert AnyAt(xs, a, b) == AnyAt(ys, a, b);
      assert forall d :: SomeAt(xs, a, b, d) == SomeAt(ys, a, b, d);
      LookUpIgnoresOrder(xs, ys, a, b - 1, lo, inherited);
    }
  }

  // ------------------------------------------- what a lookup means, route by route

  /** The route's destination has the address: same width, and the leading bits agree. */
  ghost predicate Covers(r: Route, a: Bits) {
    && |a| == |r.destination.addr| && |a| > 0 && 0 <= r.destination.bits <= |a|
    && forall i :: 0 <= i < r.destination.bits ==> a[i] == r.destination.addr[i]
  }

  /** r is one of the most specific routes of the table for the address. */
  ghost predicate LongestFor(routes: seq<Route>, a: Bits, r: Route) {
    && r in routes && Covers(r, a)
    && forall s :: s in routes && Covers(s, a) ==> s.destination.bits <= r.destination.bits
  }

  /** The route ends in the tunnel or nowhere. */
  ghost predicate StaysInside(r: Route) {
    r.kind == KindTunnel || r.kind == KindBlackhole || (r.kind == KindUnspecified && r.viaTunnel)
  }

  /** The route leaves by a physical link. */
  ghost predicate GoesOut(r: Route) {
    r.kind == KindPhysical || (r.kind == KindUnspecified && !r.viaTunnel)
  }

  /** Some route takes the address, and every most specific one keeps it inside. */
  ghost predicate KeptInside(routes: seq<Route>, a: Bits) {
    && (exists r :: LongestFor(routes, a, r))
    && (forall r :: LongestFor(routes, a, r) ==> StaysInside(r))
  }

  /** A most specific route takes the address out, and none of them keeps it inside. */
  ghost predicate LeaksOut(routes: seq<Route>, a: Bits) {
    && (exists r :: LongestFor(routes, a, r) && GoesOut(r))
    && (forall r :: LongestFor(routes, a, r) ==> !StaysInside(r))
  }

  /** Every address of the family is kept inside. */
  ghost predicate AllKept(routes: seq<Route>, fam: AddressFamily) {
    forall a: Bits :: |a| == fam ==> KeptInside(routes, a)
  }

  /** Some address of the family leaks out. */
  ghost predicate SomeLeaks(routes: seq<Route>, fam: AddressFamily) {
    exists a: Bits :: |a| == fam && LeaksOut(routes, a)
  }

  /** Some route has the address. */
  ghost predicate Routed(routes: seq<Route>, a: Bits) {
    exists r :: r in routes && Covers(r, a)
  }

  lemma CoveredIsRouted(routes: seq<Route>, a: Bits)
    ensures Covered(routes, a) <==> Routed(routes, a)
  {
    forall r: Route ensures Covers(r, a) <==> Matches(r, a) { CoversIsMatch(r, a); }
  }

  lemma CoversIsMatch(r: Route, a: Bits)
    ensures Covers(r, a) <==> Matches(r, a)
  {
    WidthBound(r.destination);
    var q := r.destination;
    if Covers(r, a) {
      assert a[..q.bits] == q.addr[..q.bits];
    }
    if Matches(r, a) {
      forall i | 0 <= i < q.bits ensures a[i] == q.addr[i] {
        assert a[i] == a[..q.bits][i] == q.addr[..q.bits][i];
      }
    }
  }

  /** A table with a route for the address has a most specific one. */
  lemma {:induction false} LongestExists(routes: seq<Route>, a: Bits) returns (r: Route)
    requires exists x :: x in routes && Covers(x, a)
    ensures LongestFor(routes, a, r)
  {
    var n := |routes| - 1;
    var rest, last := routes[..n], routes[n];
    assert routes == rest + [last];
    if exists x :: x in rest && Covers(x, a) {
      r := LongestExists(rest, a);
      if Covers(last, a) && last.destination.bits > r.destination.bits {
        r := last;
      }
    } else {
      r := last;
    }
  }

  /** The three answers of a lookup, said in the kinds of the most specific routes. */
  lemma ResolveInKinds(routes: seq<Route>, a: Bits)
    ensures Resolve(routes, a) == Contained <==> KeptInside(routes, a)
    ensures Resolve(routes, a) == PhysicalEscape <==> LeaksOut(routes, a)
  {
    forall r: Route ensures Covers(r, a) <==> Matches(r, a) { CoversIsMatch(r, a); }
    if Covered(routes, a) {
      var longest := LongestExists(routes, a);
      var b := longest.destination.bits;
      ResolveIsLongestMatch(routes, a, longest);
      assert forall r :: LongestFor(routes, a, r) <==> r in routes && Matches(r, a) && r.destination.bits == b;
      forall r: Route
        ensures StaysInside(r) <==> r.Disposition() == Safe
        ensures GoesOut(r) <==> r.Disposition() == Physical
      {
      }
    } else {
      LookUpUncovered(routes, a, |a|, 0, Unknown);
    }
  }

  /** The verdicts on a family, said in the kinds of the most specific routes of its addresses. */
  lemma WorstInKinds(c: Coverage, routes: seq<Route>, fam: AddressFamily)
    requires IsWorst(c, routes, fam)
    ensures c == Contained <==> AllKept(routes, fam)
    ensures c == PhysicalEscape <==> SomeLeaks(routes, fam)
  {
    var worst: Bits :| |worst| == fam && Resolve(routes, worst) == c;
    ResolveInKinds(routes, worst);
    forall a: Bits | |a| == fam
      ensures c == Contained ==> KeptInside(routes, a)
      ensures LeaksOut(routes, a) ==> c == PhysicalEscape
    {
      ResolveInKinds(routes, a);
      assert Resolve(routes, a).Rank() <= c.Rank();
    }
  }

  // ---------------------------------------------------------------- prefix facts

  /** Masked prefixes coincide exactly when lengths and leading bits do. */
  lemma MaskedEqual(p: Prefix, q: Prefix)
    requires q.IsValid()
    ensures p.Masked() == q.Masked() <==>
            p.IsValid() && |p.addr| == |q.addr| && p.bits == q.bits && p.addr[..p.bits] == q.addr[..q.bits]
  {
    if p.IsValid() {
      assert p.Masked().addr[..p.bits] == p.addr[..p.bits];
      assert q.Masked().addr[..q.bits] == q.addr[..q.bits];
      assert |p.Masked().addr| == |p.addr| && |q.Masked().addr| == |q.addr|;
    }
  }

  /** The two halves of a prefix, told apart by the next bit. */
  function ChildPrefixes(scope: Prefix): (r: (Prefix, Prefix))
    requires 0 <= scope.bits < |scope.addr|
    requires scope.Masked() == scope
    ensures r.0.bits == scope.bits + 1 == r.1.bits && |r.0.addr| == |scope.addr| == |r.1.addr|
    ensures r.0.Masked() == r.0 && r.1.Masked() == r.1
    ensures forall a: Bits :: r.0.Contains(a) <==> scope.Contains(a) && !a[scope.bits]
    ensures forall a: Bits :: r.1.Contains(a) <==> scope.Contains(a) && a[scope.bits]
  {
    var b := scope.bits;
    var low := Prefix(scope.addr, b + 1).Masked();
    var high := Prefix(scope.addr[b := true], b + 1).Masked();
    assert scope.addr[b] == scope.Masked().addr[b] == false;
    assert low.addr[..b + 1] == scope.addr[..b] + [false];
    assert high.addr[..b + 1] == scope.addr[..b] + [true];
    assert low.Masked() == low;
    assert high.Masked() == high;
    assert forall a: Bits :: |a| == |scope.addr| ==> a[..b + 1] == a[..b] + [a[b]];
    (low, high)
  }

  // --------------------------------------------------------------- the code

  /** dispositionAt: which kinds of routes sit exactly at target. */
  method DispositionAt(routes: seq<Route>, fam: AddressFamily, target: Prefix)
      returns (safe: bool, physical: bool, unknown: bool, present: bool)
    requires target.IsValid() && |target.addr| == fam
    ensures forall a: Bits :: target.Contains(a) ==>
              && present == AnyAt(routes, a, target.bits)
              && safe == SomeAt(routes, a, target.bits, Safe)
              && physical == SomeAt(routes, a, target.bits, Physical)
              && unknown == SomeAt(routes, a, target.bits, Unclassified)
    ensures safe <==> exists r :: r in routes && SitsAt(r, target) && StaysInside(r)
    ensures physical <==> exists r :: r in routes && SitsAt(r, target) && GoesOut(r)
    ensures unknown <==> exists r :: r in routes && SitsAt(r, target) && r.kind.KindOther?
  {
    safe, physical, unknown, present := false, false, false, false;
    var tm := target.Masked();
    for i := 0 to |routes|
      invariant present == exists k :: 0 <= k < i && SitsAt(routes[k], target)
      invariant safe == exists k :: 0 <= k < i && SitsAt(routes[k], target) && routes[k].Disposition() == Safe
      invariant physical == exists k :: 0 <= k < i && SitsAt(routes[k], target) && routes[k].Disposition() == Physical
      invariant unknown == exists k :: 0 <= k < i && SitsAt(routes[k], target)
                                       && routes[k].Disposition() == Unclassified
    {
      var r := routes[i];
      MaskedEqual(r.destination, target);
      if r.InFamily(fam) && r.destination.Masked() == tm {
        assert SitsAt(routes[i], target);
        present := true;
        match r.Disposition() {
          case Safe => safe := true;
          case Physical => physical := true;
          case Unclassified => unknown := true;
        }
      }
    }
    forall a: Bits | target.Contains(a)
      ensures present == AnyAt(routes, a, target.bits)
      ensures safe == SomeAt(routes, a, target.bits, Safe)
      ensures physical == SomeAt(routes, a, target.bits, Physical)
      ensures unknown == SomeAt(routes, a, target.bits, Unclassified)
    {
      assert forall r: Route :: SitsAt(r, target) <==> Matches(r, a) && r.destination.bits == target.bits;
    }
  }

  ghost predicate SitsAt(r: Route, target: Prefix)
    requires target.IsValid()
  {
    && r.destination.IsValid()
    && |r.destination.addr| == |target.addr|
    && r.destination.bits == target.bits
    && r.destination.addr[..target.bits] == target.addr[..target.bits]
  }

  /** coverageAt: the reading of one exact prefix, and whether it is decisive. */
  method CoverageAt(routes: seq<Route>, fam: AddressFamily, target: Prefix)
      returns (cov: Coverage, decisive: bool)
    requires target.IsValid() && |target.addr| == fam
    ensures forall a: Bits :: target.Contains(a) ==>
              && decisive == AnyAt(routes, a, target.bits)
              && (decisive ==> cov == VerdictAt(routes, a, target.bits))
  {
    var safe, physical, unknown, present := DispositionAt(routes, fam, target);
    assert target.Contains(target.addr);
    if !present {
      return Unknown, false;
    }
    if safe && physical {
      return Unknown, true;
    } else if physical {
      return PhysicalEscape, true;
    } else if unknown {
      return Unknown, true;
    } else if safe {
      return Contained, true;
    }
    // A present route has some disposition, so one of the flags was set.
    assert false;
    return Unknown, false;
  }

  /** combineCoverage is the join of the lattice. */
  function CombineCoverage(a: Coverage, b: Coverage): (r: Coverage)
    ensures a.Rank() <= r.Rank() && b.Rank() <= r.Rank() && (r == a || r == b)
  {
    if a == PhysicalEscape || b == PhysicalEscape then PhysicalEscape
    else if a == Unknown || b == Unknown then Unknown
    else Contained
  }

  /** The routes of within that are more specific than bits. */
  method Deeper(within: seq<Route>, bits: int) returns (deeper: seq<Route>)
    ensures forall r :: r in deeper <==> r in within && r.destination.bits > bits
  {
    deeper := [];
    for i := 0 to |within|
      invariant forall r :: r in deeper <==> r in within[..i] && r.destination.bits > bits
    {
      assert within[..i + 1] == within[..i] + [within[i]];
      if within[i].destination.bits > bits {
        deeper := deeper + [within[i]];
      }
    }
    assert within[..|within|] == within;
  }

  /** Splits the deeper routes between the two halves of the scope. */
  method Partition(deeper: seq<Route>, low: Prefix, high: Prefix)
      returns (lowWithin: seq<Route>, highWithin: seq<Route>)
    ensures forall r :: r in lowWithin <==> r in deeper && low.Contains(r.destination.addr)
    ensures forall r :: r in highWithin <==>
              r in deeper && high.Contains(r.destination.addr) && !low.Contains(r.destination.addr)
  {
    lowWithin, highWithin := [], [];
    for i := 0 to |deeper|
      invariant forall r :: r in lowWithin <==> r in deeper[..i] && low.Contains(r.destination.addr)
      invariant forall r :: r in highWithin <==>
                  r in deeper[..i] && high.Contains(r.destination.addr) && !low.Contains(r.destination.addr)
    {
      assert deeper[..i + 1] == deeper[..i] + [deeper[i]];
      var na := deeper[i].destination.addr;
      if low.Contains(na) {
        lowWithin := lowWithin + [deeper[i]];
      } else if high.Contains(na) {
        highWithin := highWithin + [deeper[i]];
      }
    }
    assert deeper[..|deeper|] == deeper;
  }

  /** Routes handed to the walk for scope: same width, and inside it when more specific. */
  ghost predicate Inside(within: seq<Route>, scope: Prefix)
    requires scope.bits >= 0
  {
    forall r :: r in within ==>
      && |r.destination.addr| == |scope.addr|
      && (r.destination.bits > scope.bits ==> scope.Contains(r.destination.addr))
  }

  /** half holds the routes of within that lie in the child prefix. */
  ghost predicate HalfOf(half: seq<Route>, within: seq<Route>, scope: Prefix, child: Prefix) {
    && child.bits == scope.bits + 1
    && (forall a: Bits :: child.Contains(a) ==> scope.Contains(a))
    && (forall r :: r in half <==> r in within && r.destination.bits > scope.bits && child.Contains(r.destination.addr))
  }

  /** The partition hands each half exactly its own routes. */
  lemma PartitionHalves(within: seq<Route>, deeper: seq<Route>, lowWithin: seq<Route>, highWithin: seq<Route>,
                        scope: Prefix, low: Prefix, high: Prefix)
    requires 0 <= scope.bits < |scope.addr| && scope.Masked() == scope && Inside(within, scope)
    requires (low, high) == ChildPrefixes(scope)
    requires forall r :: r in deeper <==> r in within && r.destination.bits > scope.bits
    requires forall r :: r in lowWithin <==> r in deeper && low.Contains(r.destination.addr)
    requires forall r :: r in highWithin <==>
               r in deeper && high.Contains(r.destination.addr) && !low.Contains(r.destination.addr)
    ensures HalfOf(lowWithin, within, scope, low) && Inside(lowWithin, low)
    ensures HalfOf(highWithin, within, scope, high) && Inside(highWithin, high)
  {
  }

  /** A more specific candidate for an address of the child lies in the child. */
  lemma CandidatesStayInChild(half: seq<Route>, within: seq<Route>, scope: Prefix, child: Prefix, a: Bits, r: Route)
    requires HalfOf(half, within, scope, child) && child.Contains(a)
    requires r.destination.bits > scope.bits && Matches(r, a)
    ensures r in within <==> r in half
  {
    var p := r.destination;
    assert p.addr[..child.bits] == p.addr[..p.bits][..child.bits] == a[..p.bits][..child.bits] == a[..child.bits];
  }

  /** Descending into a half: what matched at scope becomes what is inherited. */
  lemma {:induction false} DescendLookUp(half: seq<Route>, within: seq<Route>, scope: Prefix, child: Prefix,
                                         a: Bits, b: int, inherited: Coverage, eff: Coverage)
    requires scope.bits >= 0 && HalfOf(half, within, scope, child) && child.Contains(a)
    requires b >= scope.bits
    requires eff == if AnyAt(within, a, scope.bits) then VerdictAt(within, a, scope.bits) else inherited
    ensures LookUp(within, a, b, scope.bits, inherited) == LookUp(half, a, b, child.bits, eff)
    decreases b
  {
    if b > scope.bits {
      forall r: Route | r.destination.bits == b && Matches(r, a)
        ensures r in within <==> r in half
      {
        CandidatesStayInChild(half, within, scope, child, a, r);
      }
      assert AnyAt(within, a, b) == AnyAt(half, a, b);
      assert forall d :: SomeAt(within, a, b, d) == SomeAt(half, a, b, d);
      DescendLookUp(half, within, scope, child, a, b - 1, inherited, eff);
    } else {
      assert LookUp(within, a, b - 1, scope.bits, inherited) == inherited;
    }
  }

  /** With nothing more specific than the scope, every address reads as the scope does. */
  lemma {:induction false} FlatLookUp(within: seq<Route>, a: Bits, b: int, lo: nat, inherited: Coverage)
    requires b >= lo
    requires forall r :: r in within ==> r.destination.bits <= lo
    ensures LookUp(within, a, b, lo, inherited) ==
            if AnyAt(within, a, lo) then VerdictAt(within, a, lo) else inherited
    decreases b
  {
    if b > lo {
      FlatLookUp(within, a, b - 1, lo, inherited);
    } else {
      assert LookUp(within, a, b - 1, lo, inherited) == inherited;
    }
  }

  /** Joining the two halves gives the worst answer of the whole scope. */
  lemma JoinHalves(within: seq<Route>, lowWithin: seq<Route>, highWithin: seq<Route>,
                   scope: Prefix, low: Prefix, high: Prefix,
                   inherited: Coverage, eff: Coverage, cl: Coverage, ch: Coverage)
    requires scope.bits >= 0
    requires HalfOf(lowWithin, within, scope, low) && HalfOf(highWithin, within, scope, high)
    requires forall a: Bits :: scope.Contains(a) ==> low.Contains(a) || high.Contains(a)
    requires forall a: Bits :: scope.Contains(a) ==>
               eff == if AnyAt(within, a, scope.bits) then VerdictAt(within, a, scope.bits) else inherited
    requires IsWorstWithin(cl, lowWithin, low, eff) && IsWorstWithin(ch, highWithin, high, eff)
    ensures IsWorstWithin(CombineCoverage(cl, ch), within, scope, inherited)
  {
    var c := CombineCoverage(cl, ch);
    forall a: Bits | scope.Contains(a)
      ensures low.Contains(a) ==>
                LookUp(within, a, |a|, scope.bits, inherited) == LookUp(lowWithin, a, |a|, low.bits, eff)
      ensures high.Contains(a) ==>
                LookUp(within, a, |a|, scope.bits, inherited) == LookUp(highWithin, a, |a|, high.bits, eff)
    {
      if low.Contains(a) { DescendLookUp(lowWithin, within, scope, low, a, |a|, inherited, eff); }
      if high.Contains(a) { DescendLookUp(highWithin, within, scope, high, a, |a|, inherited, eff); }
    }
    if c == cl {
      var a: Bits :| low.Contains(a) && LookUp(lowWithin, a, |a|, low.bits, eff) == cl;
      assert scope.Contains(a) && LookUp(within, a, |a|, scope.bits, inherited) == c;
    } else {
      var a: Bits :| high.Contains(a) && LookUp(highWithin, a, |a|, high.bits, eff) == ch;
      assert scope.Contains(a) && LookUp(within, a, |a|, scope.bits, inherited) == c;
    }
  }

  /** classifySpace: the trie walk, proved to compute the worst address of the scope. */
  method ClassifySpace(scope: Prefix, fam: AddressFamily, within: seq<Route>, inherited: Coverage)
      returns (c: Coverage)
    requires scope.IsValid() && |scope.addr| == fam && scope.Masked() == scope
    requires Inside(within, scope)
    ensures IsWorstWithin(c, within, scope, inherited)
    decreases fam - scope.bits
  {
    var eff := inherited;
    var cov, decisive := CoverageAt(within, fam, scope);
    if decisive {
      eff := cov;
    }
    assert scope.Contains(scope.addr);
    assert forall a: Bits :: scope.Contains(a) ==>
        eff == if AnyAt(within, a, scope.bits) then VerdictAt(within, a, scope.bits) else inherited;

    var deeper := Deeper(within, scope.bits);
    if |deeper| == 0 {
      FlatScope(within, scope, inherited, eff, deeper);
      return eff;
    }
    WidthBound(deeper[0].destination);
    assert deeper[0] in within && scope.bits < deeper[0].destination.bits <= fam;
    if scope.bits >= fam {
      // A host prefix holds nothing more specific: deeper cannot be non-empty.
      assert false;
      return eff;
    }
    var (low, high) := ChildPrefixes(scope);
    var lowWithin, highWithin := Partition(deeper, low, high);
    PartitionHalves(within, deeper, lowWithin, highWithin, scope, low, high);
    var cl := ClassifySpace(low, fam, lowWithin, eff);
    var ch := ClassifySpace(high, fam, highWithin, eff);
    JoinHalves(within, lowWithin, highWithin, scope, low, high, inherited, eff, cl, ch);
    return CombineCoverage(cl, ch);
  }

  lemma FlatScope(within: seq<Route>, scope: Prefix, inherited: Coverage, eff: Coverage, deeper: seq<Route>)
    requires scope.IsValid() && deeper == []
    requires forall r :: r in deeper <==> r in within && r.destination.bits > scope.bits
    requires forall a: Bits :: scope.Contains(a) ==>
               eff == if AnyAt(within, a, scope.bits) then VerdictAt(within, a, scope.bits) else inherited
    ensures IsWorstWithin(eff, within, scope, inherited)
  {
    forall a: Bits | scope.Contains(a)
      ensures LookUp(within, a, |a|, scope.bits, inherited) == eff
    {
      FlatLookUp(within, a, |a|, scope.bits, inherited);
    }
    assert scope.Contains(scope.addr);
  }

  /** The routes of one family; invalid and foreign routes are dropped. */
  method OfFamily(routes: seq<Route>, fam: AddressFamily) returns (within: seq<Route>)
    ensures forall r :: r in within <==> r in routes && r.InFamily(fam)
  {
    within := [];
    for i := 0 to |routes|
      invariant forall r :: r in within <==> r in routes[..i] && r.InFamily(fam)
    {
      assert routes[..i + 1] == routes[..i] + [routes[i]];
      if routes[i].InFamily(fam) {
        within := within + [routes[i]];
      }
    }
    assert routes[..|routes|] == routes;
  }

  function DefaultPrefix(fam: AddressFamily): (p: Prefix)
    ensures p.Masked() == p || fam == 0
    ensures fam > 0 ==> forall a: Bits :: p.Contains(a) <==> |a| == fam
  {
    var p := Prefix(seq(fam, _ => false), 0);
    assert fam > 0 ==> p.Masked() == p;
    p
  }

  /** defaultCoverage: the verdict on a whole family is its worst address's. */
  method DefaultCoverage(routes: seq<Route>, fam: AddressFamily) returns (c: Coverage)
    requires fam > 0
    ensures IsWorst(c, routes, fam)
    ensures c == Contained <==> AllKept(routes, fam)
    ensures c == PhysicalEscape <==> SomeLeaks(routes, fam)
  {
    var within := OfFamily(routes, fam);
    c := ClassifySpace(DefaultPrefix(fam), fam, within, Unknown);
    forall a: Bits | |a| == fam
      ensures LookUp(within, a, |a|, 0, Unknown) == Resolve(routes, a)
    {
      LookUpIgnoresOrder(within, routes, a, |a|, 0, Unknown);
    }
    WorstInKinds(c, routes, fam);
  }

  /** presentAt: some route of any kind sits exactly at target. */
  method PresentAt(routes: seq<Route>, fam: AddressFamily, target: Prefix) returns (present: bool)
    requires target.IsValid() && |target.addr| == fam
    ensures forall a: Bits :: target.Contains(a) ==> present == AnyAt(routes, a, target.bits)
  {
    var tm := target.Masked();
    for i := 0 to |routes|
      invariant forall k :: 0 <= k < i ==> !SitsAt(routes[k], target)
    {
      MaskedEqual(routes[i].destination, target);
      if routes[i].InFamily(fam) && routes[i].destination.Masked() == tm {
        assert SitsAt(routes[i], target);
        return true;
      }
    }
    return false;
  }

  /** An uncovered scope is tiled exactly when both its halves are. */
  lemma TiledByHalves(within: seq<Route>, lowWithin: seq<Route>, highWithin: seq<Route>,
                      scope: Prefix, low: Prefix, high: Prefix)
    requires scope.bits >= 0
    requires HalfOf(lowWithin, within, scope, low) && HalfOf(highWithin, within, scope, high)
    requires forall a: Bits :: scope.Contains(a) ==> low.Contains(a) || high.Contains(a)
    requires forall a: Bits :: scope.Contains(a) ==> !AnyAt(within, a, scope.bits)
    ensures TiledFrom(within, scope, scope.bits) <==>
            TiledFrom(lowWithin, low, low.bits) && TiledFrom(highWithin, high, high.bits)
  {
    DescendTiled(lowWithin, within, scope, low);
    DescendTiled(highWithin, within, scope, high);
  }

  lemma DescendTiled(half: seq<Route>, within: seq<Route>, scope: Prefix, child: Prefix)
    requires scope.bits >= 0 && HalfOf(half, within, scope, child)
    requires forall a: Bits :: scope.Contains(a) ==> !AnyAt(within, a, scope.bits)
    ensures TiledFrom(half, child, child.bits) <==> TiledFrom(within, child, scope.bits)
  {
    forall a: Bits, r: Route | child.Contains(a) && Matches(r, a) && r.destination.bits > scope.bits
      ensures r in within <==> r in half
    {
      CandidatesStayInChild(half, within, scope, child, a, r);
    }
  }

  /** A scope with a route of its own is tiled; one with no route in it is not. */
  lemma TiledFlat(within: seq<Route>, scope: Prefix)
    requires scope.IsValid()
    ensures (forall a: Bits :: scope.Contains(a) ==> AnyAt(within, a, scope.bits)) ==>
              TiledFrom(within, scope, scope.bits)
    ensures (forall r :: r in within ==> r.destination.bits <= scope.bits) && !AnyAt(within, scope.addr, scope.bits) ==>
              !TiledFrom(within, scope, scope.bits)
  {
    assert scope.Contains(scope.addr);
  }

  /** spaceCovered: presence of any route, address by address. */
  method SpaceCovered(scope: Prefix, fam: AddressFamily, within: seq<Route>, inherited: bool) returns (covered: bool)
    requires scope.IsValid() && |scope.addr| == fam && scope.Masked() == scope
    requires Inside(within, scope)
    ensures covered <==> inherited || TiledFrom(within, scope, scope.bits)
    decreases fam - scope.bits
  {
    var present := PresentAt(within, fam, scope);
    TiledFlat(within, scope);
    if inherited || present {
      return true;
    }
    var deeper := Deeper(within, scope.bits);
    if |deeper| == 0 {
      return false;
    }
    WidthBound(deeper[0].destination);
    assert deeper[0] in within && scope.bits < deeper[0].destination.bits <= fam;
    if scope.bits >= fam {
      assert false;
      return false;
    }
    var (low, high) := ChildPrefixes(scope);
    var lowWithin, highWithin := Partition(deeper, low, high);
    PartitionHalves(within, deeper, lowWithin, highWithin, scope, low, high);
    TiledByHalves(within, lowWithin, highWithin, scope, low, high);
    covered := SpaceCovered(low, fam, lowWithin, false);
    if covered {
      covered := SpaceCovered(high, fam, highWithin, false);
    }
  }

  /** hasCompleteDefault: every address of the family has a candidate route. */
  method HasCompleteDefault(routes: seq<Route>, fam: AddressFamily) returns (complete: bool)
    requires fam > 0
    ensures complete <==> forall a: Bits :: |a| == fam ==> Routed(routes, a)
  {
    var within := OfFamily(routes, fam);
    complete := SpaceCovered(DefaultPrefix(fam), fam, within, false);
    forall a: Bits ensures Covered(routes, a) <==> Routed(routes, a) { CoveredIsRouted(routes, a); }
  }

  // -------------------------------------------------- what the verdicts mean

  /** The specification fixes the verdict, and it reads only which routes are present. */
  lemma VerdictIsDetermined(xs: seq<Route>, ys: seq<Route>, fam: AddressFamily, c: Coverage, d: Coverage)
    requires forall r :: r in xs <==> r in ys
    requires IsWorst(c, xs, fam) && IsWorst(d, ys, fam)
    ensures c == d
  {
    forall a: Bits | |a| == fam
      ensures Resolve(xs, a) == Resolve(ys, a)
    {
      LookUpIgnoresOrder(xs, ys, a, |a|, 0, Unknown);
    }
  }

  /** A contained family has no uncovered address. */
  lemma ContainedIsComplete(routes: seq<Route>, fam: AddressFamily, a: Bits)
    requires IsWorst(Contained, routes, fam) && |a| == fam
    ensures KeptInside(routes, a) && Routed(routes, a)
  {
    ResolveInKinds(routes, a);
    assert Resolve(routes, a).Rank() <= Contained.Rank();
    var r :| LongestFor(routes, a, r);
  }

  /** The more specific routes of a table inside p, the way the walk collects them. */
  ghost predicate BelowPrefix(below: seq<Route>, routes: seq<Route>, p: Prefix) {
    forall r :: r in below <==>
      r in routes && r.InFamily(|p.addr|) && r.destination.bits > p.bits && p.Contains(r.destination.addr)
  }

  /** Tiling p from below is the same question for the whole table and for the routes inside p. */
  lemma TiledByOwnSubtree(routes: seq<Route>, below: seq<Route>, p: Prefix)
    requires p.IsValid() && BelowPrefix(below, routes, p)
    ensures TiledFrom(below, p, p.bits) <==> TiledFrom(routes, p, p.bits + 1)
  {
    forall a: Bits, r: Route | p.Contains(a) && Matches(r, a) && r.destination.bits > p.bits
      ensures r in routes <==> r in below
    {
      var q := r.destination;
      assert q.addr[..p.bits] == q.addr[..q.bits][..p.bits] == a[..q.bits][..p.bits] == a[..p.bits];
    }
  }

  /** A prefix whose own routes are all physical leaks exactly where nothing more specific tiles it. */
  lemma PhysicalPrefixLeaks(routes: seq<Route>, p: Prefix, own: Route)
    requires p.IsValid() && own in routes && SitsAt(own, p)
    requires forall r :: r in routes && SitsAt(r, p) ==> GoesOut(r)
    ensures !TiledFrom(routes, p, p.bits + 1) <==>
            exists a: Bits :: p.Contains(a) && LeaksOut(routes, a)
                              && forall r :: r in routes && Matches(r, a) ==> r.destination.bits <= p.bits
    ensures !TiledFrom(routes, p, p.bits + 1) ==> forall c :: IsWorst(c, routes, |p.addr|) ==> c == PhysicalEscape
  {
    if !TiledFrom(routes, p, p.bits + 1) {
      var a: Bits :| p.Contains(a) && !CoveredFrom(routes, a, p.bits + 1);
      assert forall r :: r in routes && Matches(r, a) ==> r.destination.bits <= p.bits;
      assert Matches(own, a);
      ResolveIsLongestMatch(routes, a, own);
      assert forall r: Route :: Matches(r, a) && r.destination.bits == p.bits ==> SitsAt(r, p);
      assert SomeAt(routes, a, p.bits, Physical);
      ResolveInKinds(routes, a);
    }
  }

  // ------------------------------------------------------- the routes probe

  datatype InterfaceAddr = InterfaceAddr(addr: Bits, family: AddressFamily, globalUnicast: bool) {
    predicate Supports(fam: AddressFamily) {
      |addr| > 0 && globalUnicast && family == fam && |addr| == fam
    }
  }

  datatype Snapshot = Snapshot(addresses: seq<InterfaceAddr>, routes: seq<Route>, exitActive: bool)

  datatype RoutesFinding = RoutesOK | DefaultMissing | ExitDefaultAbsent | PhysicalFallback

  ghost predicate HasUsableAddress(snap: Snapshot, fam: AddressFamily) {
    exists a :: a in snap.addresses && a.family == fam && |a.addr| == fam && |a.addr| > 0 && a.globalUnicast
  }

  /** A family counts when the node holds a usable address in it, else when it appears in the table. */
  ghost predicate Relevant(snap: Snapshot, fam: AddressFamily) {
    && (fam == 32 || fam == 128)
    && if HasUsableAddress(snap, 32) || HasUsableAddress(snap, 128)
       then HasUsableAddress(snap, fam)
       else exists r :: r in snap.routes && |r.destination.addr| == fam
  }

  method RelevantRouteFamilies(snap: Snapshot) returns (fams: seq<AddressFamily>)
    ensures forall fam :: fam in fams <==> Relevant(snap, fam)
    ensures forall i, j :: 0 <= i < j < |fams| ==> fams[i] != fams[j]
  {
    var haveV4, haveV6 := false, false;
    for i := 0 to |snap.addresses|
      invariant haveV4 == exists k :: 0 <= k < i && snap.addresses[k].Supports(FAMILY_V4)
      invariant haveV6 == exists k :: 0 <= k < i && snap.addresses[k].Supports(FAMILY_V6)
    {
      if snap.addresses[i].Supports(FAMILY_V4) {
        haveV4 := true;
      } else if snap.addresses[i].Supports(FAMILY_V6) {
        haveV6 := true;
      }
    }
    if !haveV4 && !haveV6 {
      for i := 0 to |snap.routes|
        invariant haveV4 == exists k :: 0 <= k < i && snap.routes[k].InFamily(FAMILY_V4)
        invariant haveV6 == exists k :: 0 <= k < i && snap.routes[k].InFamily(FAMILY_V6)
      {
        if snap.routes[i].InFamily(FAMILY_V4) {
          haveV4 := true;
        } else if snap.routes[i].InFamily(FAMILY_V6) {
          haveV6 := true;
        }
      }
    }
    fams := [];
    if haveV4 { fams := fams + [FAMILY_V4]; }
    if haveV6 { fams := fams + [FAMILY_V6]; }
  }

  method AllFamiliesHaveDefault(routes: seq<Route>, fams: seq<AddressFamily>) returns (all: bool)
    requires forall fam :: fam in fams ==> fam > 0
    ensures all <==> fams != [] && forall fam, a: Bits :: fam in fams && |a| == fam ==> Routed(routes, a)
  {
    if |fams| == 0 {
      return false;
    }
    for i := 0 to |fams|
      invariant forall k, a: Bits :: 0 <= k < i && |a| == fams[k] ==> Routed(routes, a)
    {
      var fam := fams[i];
      assert fam in fams;
      var complete := HasCompleteDefault(routes, fam);
      if !complete {
        return false;
      }
    }
    return true;
  }

  /** Every family in use is completely covered, and there is one. */
  ghost predicate DefaultsPresent(snap: Snapshot) {
    && (exists fam :: Relevant(snap, fam))
    && (forall fam, a: Bits :: Relevant(snap, fam) && |a| == fam ==> Routed(snap.routes, a))
  }

  /** routesProbe.Run: each finding is reported exactly when the table, read address by address, deserves it. */
  method RunRoutesProbe(snap: Snapshot) returns (findings: seq<RoutesFinding>)
    ensures RoutesOK in findings <==> DefaultsPresent(snap) && (snap.exitActive ==> AllKept(snap.routes, 32))
    ensures DefaultMissing in findings <==> !DefaultsPresent(snap)
    ensures ExitDefaultAbsent in findings <==> snap.exitActive && !AllKept(snap.routes, 32)
    ensures PhysicalFallback in findings <==> snap.exitActive && SomeLeaks(snap.routes, 32)
  {
    findings := [];
    var fams := RelevantRouteFamilies(snap);
    var problem := false;
    var all := AllFamiliesHaveDefault(snap.routes, fams);
    assert all == DefaultsPresent(snap) by {
      if fams != [] { assert fams[0] in fams; }
    }
    if !all {
      problem := true;
      findings := findings + [DefaultMissing];
    }
    if snap.exitActive {
      var c := DefaultCoverage(snap.routes, FAMILY_V4);
      assert c == Contained <==> AllKept(snap.routes, 32);
      assert c == PhysicalEscape <==> SomeLeaks(snap.routes, 32);
      match c {
        case Contained =>
        case PhysicalEscape =>
          problem := true;
          findings := findings + [ExitDefaultAbsent] + [PhysicalFallback];
        case Unknown =>
          problem := true;
          findings := findings + [ExitDefaultAbsent];
      }
    }
    if !problem {
      findings := findings + [RoutesOK];
    }
  }
}
