/**
 Collision-free redaction of JSON trees (redactTree and disambiguateKey in
 internal/diagnose/redact.go), for any string redaction whatever, even a constant one.
 */
module Redact {
  import opened Decimal

  datatype Json =
    | JString(text: string)
    | JArray(items: seq<Json>)
    | JObject(fields: map<string, Json>)
    | JOther(literal: string)

  /** The redactor: how a string is scrubbed, and the fingerprint a salted redactor adds to colliding keys. */
  datatype Redactor = Redactor(scrub: string -> string, fingerprint: string -> string, sealed: bool)

  // ------------------------------------------------------------------ key order

  /** Lexicographic order by code point, which is sort.Strings' byte order on UTF-8. */
  predicate Less(a: string, b: string) {
    b != "" && (a == "" || a[0] < b[0] || (a[0] == b[0] && Less(a[1..], b[1..])))
  }

  lemma {:induction false} LessTransitive(a: string, b: string, c: string)
    requires Less(a, b) && Less(b, c)
    ensures Less(a, c)
  {
    if a != "" && a[0] == b[0] == c[0] {
      LessTransitive(a[1..], b[1..], c[1..]);
    }
  }

  lemma {:induction false} LessTotal(a: string, b: string)
    ensures a != b ==> Less(a, b) || Less(b, a)
    ensures !Less(a, a) && !(Less(a, b) && Less(b, a))
  {
    if a != "" {
      LessTotal(a[1..], a[1..]);
      if b != "" && a[0] == b[0] {
        LessTotal(a[1..], b[1..]);
        assert a == [a[0]] + a[1..] && b == [b[0]] + b[1..];
      }
    }
  }

  ghost predicate StrictlySorted(ks: seq<string>) {
    forall i, j :: 0 <= i < j < |ks| ==> Less(ks[i], ks[j])
  }

  /** ks lists the set in order. */
  ghost predicate Lists(ks: seq<string>, keys: set<string>) {
    StrictlySorted(ks) && forall k :: k in ks <==> k in keys
  }

  /** A set has one sorted listing, so the order in which a map is walked cannot matter. */
  lemma {:induction false} ListingIsUnique(xs: seq<string>, ys: seq<string>, keys: set<string>)
    requires Lists(xs, keys) && Lists(ys, keys)
    ensures xs == ys
  {
    assert forall i :: 0 <= i < |xs| ==> xs[i] in xs && xs[i] in ys;
    assert forall i :: 0 <= i < |ys| ==> ys[i] in ys && ys[i] in xs;
    if xs != [] && ys != [] {
      assert xs[0] in keys && ys[0] in keys;
      LessTotal(xs[0], ys[0]);
      TailLists(xs, keys);
      TailLists(ys, keys);
      ListingIsUnique(xs[1..], ys[1..], keys - {xs[0]});
    }
  }

  lemma TailLists(ks: seq<string>, keys: set<string>)
    requires ks != [] && Lists(ks, keys)
    ensures Lists(ks[1..], keys - {ks[0]})
  {
    LessTotal(ks[0], ks[0]);
    forall k ensures k in ks[1..] <==> k in keys - {ks[0]} {
      if k in ks[1..] {
        var i :| 0 <= i < |ks[1..]| && ks[1..][i] == k;
        assert ks[i + 1] == k && Less(ks[0], ks[i + 1]);
        assert k in ks;
      }
    }
  }

  /** Inserts k into its place. */
  method Insert(ks: seq<string>, k: string) returns (out: seq<string>)
    requires StrictlySorted(ks) && k !in ks
    ensures StrictlySorted(out) && forall x :: x in out <==> x == k || x in ks
  {
    var i := 0;
    while i < |ks| && Less(ks[i], k)
      invariant 0 <= i <= |ks|
      invariant forall j :: 0 <= j < i ==> Less(ks[j], k)
    {
      i := i + 1;
    }
    forall j | i <= j < |ks| ensures Less(k, ks[j]) {
      LessTotal(k, ks[i]);
      if j > i { LessTransitive(k, ks[i], ks[j]); }
    }
    out := ks[..i] + [k] + ks[i..];
    assert forall x :: x in ks <==> x in ks[..i] || x in ks[i..];
  }

  /** The keys of a map, walked in whatever order and then sorted. */
  method SortedKeys(keys: set<string>) returns (ks: seq<string>)
    ensures Lists(ks, keys)
  {
    ks := [];
    var todo := keys;
    while todo != {}
      invariant todo <= keys && Lists(ks, keys - todo)
      decreases |todo|
    {
      var k :| k in todo;
      ks := Insert(ks, k);
      todo := todo - {k};
    }
    assert keys - {} == keys;
  }

  lemma {:induction false} ListingExists(keys: set<string>)
    ensures exists ks :: Lists(ks, keys)
  {
    if keys == {} {
      assert Lists([], keys);
    } else {
      var k :| k in keys;
      ListingExists(keys - {k});
      var rest :| Lists(rest, keys - {k});
      var i := Place(rest, k);
      assert forall x :: x in rest <==> x in rest[..i] || x in rest[i..];
      assert Lists(rest[..i] + [k] + rest[i..], keys);
    }
  }

  /** Where k belongs in a sorted list that does not hold it. */
  lemma {:induction false} Place(ks: seq<string>, k: string) returns (i: nat)
    requires StrictlySorted(ks) && k !in ks
    ensures i <= |ks| && (forall j :: 0 <= j < i ==> Less(ks[j], k)) && (forall j :: i <= j < |ks| ==> Less(k, ks[j]))
  {
    if ks == [] {
      i := 0;
    } else {
      var n := |ks| - 1;
      LessTotal(ks[n], k);
      if Less(ks[n], k) {
        i := n + 1;
        forall j | 0 <= j < n ensures Less(ks[j], k) { LessTransitive(ks[j], ks[n], k); }
      } else {
        i := Place(ks[..n], k);
      }
    }
  }

  /** The keys in order. */
  ghost function Sorted(keys: set<string>): (ks: seq<string>)
    ensures Lists(ks, keys)
  {
    ListingExists(keys);
    var ks :| Lists(ks, keys);
    ks
  }

  // --------------------------------------------------------------- disambiguation

  function Suffix(rd: Redactor, orig: string): string {
    if rd.sealed then "" else "#" + rd.fingerprint(orig)
  }

  /** The n-th name tried for a colliding key: the suffixed base, then numbered from 2. */
  function Candidate(rd: Redactor, base: string, orig: string, n: nat): string {
    if n < 2 then base + Suffix(rd, orig) else base + Suffix(rd, orig) + "#" + Itoa(n)
  }

  lemma CandidatesDiffer(rd: Redactor, base: string, orig: string, m: nat, n: nat)
    requires 1 <= m < n
    ensures Candidate(rd, base, orig, m) != Candidate(rd, base, orig, n)
  {
    var stem := base + Suffix(rd, orig);
    var cm, cn := Candidate(rd, base, orig, m), Candidate(rd, base, orig, n);
    if cm == cn {
      assert |cn| > |stem|;
      assert cm[|stem| + 1..] == Itoa(m) && cn[|stem| + 1..] == Itoa(n);
      ItoaInjective(m, n);
    }
  }

  /** Pigeonhole: n - 1 taken candidates are n - 1 taken keys. */
  lemma {:induction false} TriedAreTaken(rd: Redactor, base: string, orig: string, taken: set<string>, n: nat)
    requires n >= 1 && forall m :: 1 <= m < n ==> Candidate(rd, base, orig, m) in taken
    ensures n - 1 <= |taken|
  {
    if n > 1 {
      var last := Candidate(rd, base, orig, n - 1);
      forall m | 1 <= m < n - 1 ensures Candidate(rd, base, orig, m) in taken - {last} {
        CandidatesDiffer(rd, base, orig, m, n - 1);
      }
      TriedAreTaken(rd, base, orig, taken - {last}, n - 1);
    }
  }

  /** key is the first candidate that is not taken. */
  ghost predicate FirstFree(rd: Redactor, base: string, orig: string, taken: set<string>, key: string) {
    exists n :: 1 <= n && key == Candidate(rd, base, orig, n) && key !in taken
                && forall m :: 1 <= m < n ==> Candidate(rd, base, orig, m) in taken
  }

  /** disambiguateKey: always ends, with the first candidate that is not taken. */
  method DisambiguateKey(rd: Redactor, taken: set<string>, base: string, orig: string) returns (key: string)
    ensures key !in taken && FirstFree(rd, base, orig, taken, key)
  {
    key := base + Suffix(rd, orig);
    var n := 2;
    while key in taken
      invariant n >= 2 && key == Candidate(rd, base, orig, n - 1)
      invariant forall m :: 1 <= m < n - 1 ==> Candidate(rd, base, orig, m) in taken
      decreases |taken| + 2 - n
    {
      TriedAreTaken(rd, base, orig, taken, n);
      key := base + Suffix(rd, orig) + "#" + Itoa(n);
      n := n + 1;
    }
    TriedAreTaken(rd, base, orig, taken, n - 1);
  }

  /** Some candidate is free: there are more candidates than taken keys. */
  lemma {:induction false} FreeExists(rd: Redactor, base: string, orig: string, taken: set<string>, n: nat)
    requires n >= 1 && forall m :: 1 <= m < n ==> Candidate(rd, base, orig, m) in taken
    ensures exists key :: FirstFree(rd, base, orig, taken, key)
    decreases |taken| + 1 - n
  {
    TriedAreTaken(rd, base, orig, taken, n);
    if Candidate(rd, base, orig, n) in taken {
      TriedAreTaken(rd, base, orig, taken, n + 1);
      FreeExists(rd, base, orig, taken, n + 1);
    } else {
      assert FirstFree(rd, base, orig, taken, Candidate(rd, base, orig, n));
    }
  }

  ghost function FreeKey(rd: Redactor, base: string, orig: string, taken: set<string>): (key: string)
    ensures key !in taken && FirstFree(rd, base, orig, taken, key)
  {
    FreeExists(rd, base, orig, taken, 1);
    var key :| FirstFree(rd, base, orig, taken, key);
    key
  }

  // --------------------------------------------------------------- specification

  /** The key a child gets when `taken` are in use already. */
  ghost function KeyFor(rd: Redactor, taken: set<string>, orig: string): (key: string)
    ensures key !in taken
  {
    if rd.scrub(orig) !in taken then rd.scrub(orig) else FreeKey(rd, rd.scrub(orig), orig, taken)
  }

  /** The key is the scrubbed original, with something appended only if that was taken. */
  ghost predicate Begins(rd: Redactor, orig: string, key: string) { rd.scrub(orig) <= key }

  lemma KeyBegins(rd: Redactor, taken: set<string>, orig: string)
    ensures Begins(rd, orig, KeyFor(rd, taken, orig))
    ensures rd.scrub(orig) !in taken ==> KeyFor(rd, taken, orig) == rd.scrub(orig)
  {
  }

  ghost predicate AllBegin(rd: Redactor, ks: seq<string>, names: seq<string>, n: nat) {
    n <= |ks| && n == |names| && forall i :: 0 <= i < n ==> Begins(rd, ks[i], names[i])
  }

  /** The redacted tree: strings scrubbed, other values kept, objects rebuilt entry by entry in key order. */
  ghost function Redacted(rd: Redactor, v: Json): Json
    decreases v, 0
  {
    match v
    case JString(text) => JString(rd.scrub(text))
    case JOther(_) => v
    case JArray(items) => JArray(seq(|items|, i requires 0 <= i < |items| => Redacted(rd, items[i])))
    case JObject(fields) => var ks := Sorted(fields.Keys); JObject(Entries(rd, v, ks, |ks|))
  }

  /** The first n entries of a redacted object. */
  ghost function Entries(rd: Redactor, v: Json, ks: seq<string>, n: nat): map<string, Json>
    requires v.JObject? && n <= |ks| && forall k :: k in ks ==> k in v.fields
    decreases v, 0, n
  {
    if n == 0 then map[]
    else
      var out := Entries(rd, v, ks, n - 1);
      assert ks[n - 1] in ks;
      out[KeyFor(rd, out.Keys, ks[n - 1]) := Redacted(rd, v.fields[ks[n - 1]])]
  }

  ghost function KeySet(names: seq<string>): set<string> { set x | x in names }

  lemma KeySetOneMore(names: seq<string>, key: string)
    ensures KeySet(names + [key]) == KeySet(names) + {key}
  {
  }

  /** names[i] is the one key of out that holds children[i], and out holds nothing else. */
  ghost predicate Pairs(out: map<string, Json>, names: seq<string>, children: seq<Json>) {
    && |names| == |children| && out.Keys == KeySet(names)
    && (forall i, j :: 0 <= i < j < |names| ==> names[i] != names[j])
    && (forall i :: 0 <= i < |names| ==> names[i] in out && out[names[i]] == children[i])
  }

  /** The redactions of the children, in key order. */
  ghost function Children(rd: Redactor, fields: map<string, Json>, ks: seq<string>, n: nat): seq<Json>
    requires n <= |ks| && forall k :: k in ks ==> k in fields
  {
    seq(n, i requires 0 <= i < n => assert ks[i] in ks; Redacted(rd, fields[ks[i]]))
  }

  lemma ChildrenOneMore(rd: Redactor, fields: map<string, Json>, ks: seq<string>, n: nat)
    requires 0 < n <= |ks| && forall k :: k in ks ==> k in fields
    ensures ks[n - 1] in ks
    ensures Children(rd, fields, ks, n) == Children(rd, fields, ks, n - 1) + [Redacted(rd, fields[ks[n - 1]])]
  {
  }

  lemma AllBeginOneMore(rd: Redactor, ks: seq<string>, names: seq<string>, n: nat, key: string)
    requires 0 < n <= |ks| && AllBegin(rd, ks, names, n - 1) && Begins(rd, ks[n - 1], key)
    ensures AllBegin(rd, ks, names + [key], n)
  {
  }

  /** Entries never overwrite each other. */
  lemma {:induction false} EntriesLoseNothing(rd: Redactor, v: Json, ks: seq<string>, n: nat)
      returns (names: seq<string>)
    requires v.JObject? && n <= |ks| && forall k :: k in ks ==> k in v.fields
    ensures Pairs(Entries(rd, v, ks, n), names, Children(rd, v.fields, ks, n))
    ensures AllBegin(rd, ks, names, n)
  {
    if n == 0 {
      names := [];
    } else {
      var before := EntriesLoseNothing(rd, v, ks, n - 1);
      names := AddEntry(rd, v, ks, n, before, Entries(rd, v, ks, n - 1));
    }
  }

  lemma AddEntry(rd: Redactor, v: Json, ks: seq<string>, n: nat, before: seq<string>, out: map<string, Json>)
      returns (names: seq<string>)
    requires v.JObject? && 0 < n <= |ks| && forall k :: k in ks ==> k in v.fields
    requires Pairs(out, before, Children(rd, v.fields, ks, n - 1)) && AllBegin(rd, ks, before, n - 1)
    ensures ks[n - 1] in ks
    ensures Pairs(out[KeyFor(rd, out.Keys, ks[n - 1]) := Redacted(rd, v.fields[ks[n - 1]])], names,
                  Children(rd, v.fields, ks, n))
    ensures AllBegin(rd, ks, names, n)
  {
    ChildrenOneMore(rd, v.fields, ks, n);
    var key := KeyFor(rd, out.Keys, ks[n - 1]);
    KeyBegins(rd, out.Keys, ks[n - 1]);
    AllBeginOneMore(rd, ks, before, n, key);
    names := before + [key];
  }

  /**
   Nothing is lost, whatever the scrubbing does: an object keeps its entry count, and each child's redaction sits
   under exactly one key. ks[i] and names[i] pair every original key with the key that holds its child.
   */
  lemma ObjectLosesNothing(rd: Redactor, fields: map<string, Json>) returns (ks: seq<string>, names: seq<string>)
    ensures Lists(ks, fields.Keys) && |ks| == |fields| && (forall i, j :: 0 <= i < j < |ks| ==> ks[i] != ks[j])
    ensures Redacted(rd, JObject(fields)).JObject?
    ensures |Redacted(rd, JObject(fields)).fields| == |fields|
    ensures Pairs(Redacted(rd, JObject(fields)).fields, names, Children(rd, fields, ks, |ks|))
    ensures AllBegin(rd, ks, names, |ks|)
  {
    ks := Sorted(fields.Keys);
    ListingSize(ks, fields.Keys);
    names := EntriesLoseNothing(rd, JObject(fields), ks, |ks|);
    PairsSize(Redacted(rd, JObject(fields)).fields, names, Children(rd, fields, ks, |ks|));
  }

  lemma ListingSize(ks: seq<string>, keys: set<string>)
    requires Lists(ks, keys)
    ensures |ks| == |keys| && forall i, j :: 0 <= i < j < |ks| ==> ks[i] != ks[j]
  {
    SortedIsDistinct(ks);
    DistinctSize(ks);
    assert KeySet(ks) == keys;
  }

  lemma PairsSize(out: map<string, Json>, names: seq<string>, children: seq<Json>)
    requires Pairs(out, names, children)
    ensures |out| == |names|
  {
    DistinctSize(names);
    assert |out| == |out.Keys|;
  }

  lemma SortedIsDistinct(ks: seq<string>)
    requires StrictlySorted(ks)
    ensures forall i, j :: 0 <= i < j < |ks| ==> ks[i] != ks[j]
  {
    forall i, j | 0 <= i < j < |ks| ensures ks[i] != ks[j] {
      LessTotal(ks[i], ks[j]);
    }
  }

  lemma {:induction false} DistinctSize(s: seq<string>)
    requires forall i, j :: 0 <= i < j < |s| ==> s[i] != s[j]
    ensures |KeySet(s)| == |s|
  {
    if s != [] {
      var n := |s| - 1;
      DistinctSize(s[..n]);
      assert s == s[..n] + [s[n]];
      KeySetOneMore(s[..n], s[n]);
      assert s[n] !in KeySet(s[..n]);
    }
  }

  // ------------------------------------------------------------ what redaction means

  /**
   w is v redacted: every string leaf scrubbed, other leaves kept, arrays item by item in order, and objects entry by
   entry, each under a key of its own that begins with the scrubbed original.
   */
  ghost predicate IsRedactionOf(rd: Redactor, v: Json, w: Json)
    decreases v, 1
  {
    match v
    case JString(text) => w == JString(rd.scrub(text))
    case JOther(_) => w == v
    case JArray(items) =>
      && w.JArray? && |w.items| == |items|
      && forall i :: 0 <= i < |items| ==> IsRedactionOf(rd, items[i], w.items[i])
    case JObject(fields) =>
      w.JObject? && |w.fields| == |fields| && exists ks, names :: EntriesMatch(rd, v, w, ks, names)
  }

  /** ks lists the keys of v, each once, and names[i] is the key of w that holds the redaction of the child at ks[i]. */
  ghost predicate EntriesMatch(rd: Redactor, v: Json, w: Json, ks: seq<string>, names: seq<string>)
    requires v.JObject? && w.JObject?
    decreases v, 0
  {
    && |ks| == |names| == |v.fields|
    && (forall k :: k in v.fields <==> k in ks) && (forall k :: k in w.fields <==> k in names)
    && (forall i, j :: 0 <= i < j < |ks| ==> ks[i] != ks[j] && names[i] != names[j])
    && (forall i :: 0 <= i < |ks| ==>
          && ks[i] in v.fields && names[i] in w.fields && rd.scrub(ks[i]) <= names[i]
          && IsRedactionOf(rd, v.fields[ks[i]], w.fields[names[i]]))
  }

  lemma {:induction false} RedactedIsRedaction(rd: Redactor, v: Json)
    ensures IsRedactionOf(rd, v, Redacted(rd, v))
  {
    match v
    case JString(_) =>
    case JOther(_) =>
    case JArray(items) =>
      forall i | 0 <= i < |items| ensures IsRedactionOf(rd, items[i], Redacted(rd, items[i])) {
        RedactedIsRedaction(rd, items[i]);
      }
    case JObject(fields) =>
      var w := Redacted(rd, v);
      var ks, names := ObjectLosesNothing(rd, fields);
      forall i | 0 <= i < |ks|
        ensures && ks[i] in fields && names[i] in w.fields && rd.scrub(ks[i]) <= names[i]
                && IsRedactionOf(rd, fields[ks[i]], w.fields[names[i]])
      {
        assert ks[i] in ks && Begins(rd, ks[i], names[i]);
        assert w.fields[names[i]] == Children(rd, fields, ks, |ks|)[i] == Redacted(rd, fields[ks[i]]);
        RedactedIsRedaction(rd, fields[ks[i]]);
      }
      assert forall k :: k in w.fields <==> k in KeySet(names);
      assert EntriesMatch(rd, v, w, ks, names);
  }

  /** A sealed redactor's keys carry nothing of the original but its scrubbed form: the fingerprint plays no part. */
  lemma SealedKeysHideTheOriginal(rd: Redactor, other: Redactor, taken: set<string>, orig: string)
    requires rd.sealed && other.sealed && rd.scrub == other.scrub
    ensures KeyFor(rd, taken, orig) == KeyFor(other, taken, orig)
  {
    var base := rd.scrub(orig);
    if base in taken {
      var key := FreeKey(rd, base, orig, taken);
      forall n: nat ensures Candidate(rd, base, orig, n) == Candidate(other, base, orig, n) {
      }
      assert FirstFree(other, base, orig, taken, key);
    }
  }

  // --------------------------------------------------------------------- the code

  /** redactTree: whatever order maps are walked in, the result is the one redacted tree. */
  method RedactTree(rd: Redactor, v: Json) returns (r: Json)
    ensures r == Redacted(rd, v) && IsRedactionOf(rd, v, r)
    decreases v, 1
  {
    RedactedIsRedaction(rd, v);
    match v
    case JString(text) => r := JString(rd.scrub(text));
    case JOther(_) => r := v;
    case JArray(items) =>
      var out: seq<Json> := [];
      for i := 0 to |items|
        invariant |out| == i && forall k :: 0 <= k < i ==> out[k] == Redacted(rd, items[k])
      {
        var x := RedactTree(rd, items[i]);
        out := out + [x];
      }
      r := JArray(out);
    case JObject(fields) => r := RedactObject(rd, v);
  }

  method RedactObject(rd: Redactor, v: Json) returns (r: Json)
    requires v.JObject?
    ensures r == Redacted(rd, v)
    decreases v, 0
  {
    var out: map<string, Json> := map[];
    var ks := SortedKeys(v.fields.Keys);
    ListingIsUnique(ks, Sorted(v.fields.Keys), v.fields.Keys);
    for i := 0 to |ks|
      invariant out == Entries(rd, v, ks, i)
    {
      var k := ks[i];
      assert k in ks;
      var rk := ChooseKey(rd, out.Keys, k);
      var child := RedactTree(rd, v.fields[k]);
      out := out[rk := child];
    }
    r := JObject(out);
  }

  method ChooseKey(rd: Redactor, taken: set<string>, orig: string) returns (key: string)
    ensures key == KeyFor(rd, taken, orig)
  {
    key := rd.scrub(orig);
    if key in taken {
      key := DisambiguateKey(rd, taken, key, orig);
    }
  }
}
