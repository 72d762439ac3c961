/** The list of Talos versions (internal/artifacts/versions.go) and what "latest" means (internal/registry/service.go).

Precedence is that of Semantic Versioning 2.0.0, section 11; version strings are taken as parsed. */
module Versions {
  import opened Strings
  import opened Ordering

  datatype Identifier = Numeric(n: nat) | Text(s: string)

  datatype Version = Version(major: nat, minor: nat, patch: nat, pre: seq<Identifier>, build: seq<string>)

  function CompareNats(a: nat, b: nat): int { if a < b then -1 else if a > b then 1 else 0 }

  /** Numeric identifiers come before the others. */
  function CompareIdentifiers(a: Identifier, b: Identifier): int {
    match (a, b)
    case (Numeric(m), Numeric(n)) => CompareNats(m, n)
    case (Numeric(_), Text(_)) => -1
    case (Text(_), Numeric(_)) => 1
    case (Text(s), Text(t)) => CompareStrings(s, t)
  }

  function ComparePre(a: seq<Identifier>, b: seq<Identifier>): int {
    if a == [] then (if b == [] then 0 else 1)
    else if b == [] then -1
    else Lex(CompareIdentifiers, a, b)
  }

  function Compare(a: Version, b: Version): int {
    if a.major != b.major then CompareNats(a.major, b.major)
    else if a.minor != b.minor then CompareNats(a.minor, b.minor)
    else if a.patch != b.patch then CompareNats(a.patch, b.patch)
    else ComparePre(a.pre, b.pre)
  }

  predicate Stable(v: Version) { v.pre == [] }

  lemma CompareIdentifiersIsTotalOrder()
    ensures TotalOrder(CompareIdentifiers)
  {
    CompareStringsIsTotalOrder();
    hide CompareStrings;
    assert Preorder(CompareStrings);
  }

  lemma ComparePreIsTotalOrder()
    ensures TotalOrder(ComparePre)
  {
    CompareIdentifiersIsTotalOrder();
    hide CompareIdentifiers, Lex;
    forall a, b
      ensures ComparePre(a, b) < 0 <==> ComparePre(b, a) > 0
      ensures ComparePre(a, b) == 0 <==> a == b
    {
      LexAntisymmetric(CompareIdentifiers, a, b);
      LexZero(CompareIdentifiers, a, b);
    }
    forall a, b, c | ComparePre(a, b) <= 0 && ComparePre(b, c) <= 0 ensures ComparePre(a, c) <= 0 {
      if Lex(CompareIdentifiers, a, b) <= 0 && Lex(CompareIdentifiers, b, c) <= 0 {
        LexTransitive(CompareIdentifiers, a, b, c);
      }
    }
  }

  /** Precedence is total; versions of equal precedence differ in their build metadata at most. */
  lemma CompareIsPreorder()
    ensures Preorder(Compare)
    ensures forall a, b :: Compare(a, b) == 0 <==> a == b.(build := a.build)
  {
    ComparePreIsTotalOrder();
    hide ComparePre;
  }

  /** Numeric identifiers are compared as numbers and come before the others, which are compared as texts. */
  ghost predicate IdentifierBefore(a: Identifier, b: Identifier) {
    match (a, b)
    case (Numeric(m), Numeric(n)) => m < n
    case (Numeric(_), Text(_)) => true
    case (Text(_), Numeric(_)) => false
    case (Text(x), Text(y)) => StringBefore(x, y)
  }

  /** A pre-release comes before its release, and before what extends it or has a later identifier where they first
  differ. */
  ghost predicate PreBefore(a: seq<Identifier>, b: seq<Identifier>) {
    && a != []
    && (|| b == []
        || (a <= b && a != b)
        || exists k :: 0 <= k < |a| && k < |b| && a[..k] == b[..k] && IdentifierBefore(a[k], b[k]))
  }

  /** Precedence is that of Semantic Versioning 2.0.0, section 11. */
  ghost predicate Precedes(a: Version, b: Version) {
    || a.major < b.major
    || (a.major == b.major && a.minor < b.minor)
    || (a.major == b.major && a.minor == b.minor && a.patch < b.patch)
    || (a.major == b.major && a.minor == b.minor && a.patch == b.patch && PreBefore(a.pre, b.pre))
  }

  lemma PrecedenceIff(a: Version, b: Version)
    ensures Compare(a, b) < 0 <==> Precedes(a, b)
  {
    CompareIdentifiersIsTotalOrder();
    forall x, y ensures CompareIdentifiers(x, y) < 0 <==> IdentifierBefore(x, y) {
      if x.Text? && y.Text? { CompareStringsIff(x.s, y.s); }
    }
    hide CompareIdentifiers, CompareStrings;
    LexIff(CompareIdentifiers, a.pre, b.pre);
  }

  /** `Version.GTE` against 1.13.0: a pre-release of 1.13.0 comes before it. */
  predicate InstallerEvidenceSupported(v: Version) { Compare(v, Version(1, 13, 0, [], [])) >= 0 }

  lemma EvidenceFrom113(v: Version)
    ensures InstallerEvidenceSupported(v)
       <==> v.major > 1 || (v.major == 1 && (v.minor > 13 || (v.minor == 13 && (v.patch > 0 || Stable(v)))))
  {
  }

  // ---------------------------------------------------------------- the list

  datatype Options = Options(min: Version, broken: seq<Version>)

  /** A pre-release is listed only for the newest minor release, and only as alpha, beta or rc with a number. */
  predicate PreReleaseAllowed(v: Version, newest: Version) {
    && v.major == newest.major && v.minor == newest.minor
    && |v.pre| == 2
    && (v.pre[0] == Text("alpha") || v.pre[0] == Text("beta") || v.pre[0] == Text("rc"))
    && v.pre[1].Numeric?
  }

  predicate Keep(options: Options, newest: Version, v: Version) {
    && Compare(v, options.min) >= 0
    && (forall b :: b in options.broken ==> Compare(v, b) != 0)
    && (Stable(v) || PreReleaseAllowed(v, newest))
  }

  ghost predicate IsNewest(candidates: seq<Version>, v: Version) {
    v in candidates && forall c :: c in candidates ==> Compare(c, v) <= 0
  }

  /** Which of several newest candidates is picked does not matter. */
  lemma NewestIsEnough(options: Options, candidates: seq<Version>, a: Version, b: Version, v: Version)
    requires IsNewest(candidates, a) && IsNewest(candidates, b)
    ensures Keep(options, a, v) <==> Keep(options, b, v)
  {
    CompareIsPreorder();
    assert Compare(a, b) <= 0 && Compare(b, a) <= 0;
  }

  /** A version is kept exactly when it does not precede the minimum, is not one of the broken ones, whatever its build,
  and is a release, or the numbered alpha, beta or candidate of a release of the newest minor one. */
  lemma KeptIff(options: Options, newest: Version, v: Version)
    ensures Keep(options, newest, v) <==>
      && !Precedes(v, options.min)
      && (forall b :: b in options.broken ==> v != b.(build := v.build))
      && (v.pre == [] || (v.major == newest.major && v.minor == newest.minor
                          && exists stage, n :: stage in {"alpha", "beta", "rc"} && v.pre == [Text(stage), Numeric(n)]))
  {
    CompareIsPreorder();
    PrecedenceIff(v, options.min);
    forall b | b in options.broken ensures Compare(v, b) != 0 <==> v != b.(build := v.build) {
      assert Compare(v, b) == 0 <==> v == b.(build := v.build);
    }
    if v.pre != [] && PreReleaseAllowed(v, newest) {
      assert v.pre == [Text(v.pre[0].s), Numeric(v.pre[1].n)];
    }
    hide Compare, Precedes;
  }

  /** The versions kept of `versions`, each as often as it occurs there. */
  ghost predicate Kept(options: Options, newest: Version, versions: seq<Version>, list: multiset<Version>) {
    forall v :: list[v] == if Keep(options, newest, v) then multiset(versions)[v] else 0
  }

  ghost predicate ListOf(options: Options, versions: seq<Version>, list: multiset<Version>) {
    exists newest :: IsNewest(versions, newest) && Kept(options, newest, versions, list)
  }

  method Filter(options: Options, newest: Version, versions: seq<Version>) returns (kept: seq<Version>)
    ensures Kept(options, newest, versions, multiset(kept))
  {
    hide Keep;
    kept := [];
    for i := 0 to |versions|
      invariant Kept(options, newest, versions[..i], multiset(kept))
    {
      assert versions[..i + 1] == versions[..i] + [versions[i]];
      if Keep(options, newest, versions[i]) {
        kept := kept + [versions[i]];
      }
    }
    assert versions[..|versions|] == versions;
  }

  /** Tags that are no versions are ignored, and every other one counts as often as it was found. */
  lemma {:induction false} ParsedCounts(candidates: seq<Option<Version>>, v: Version)
    ensures multiset(Parsed(candidates))[v] == multiset(candidates)[Some(v)]
  {
    if candidates != [] {
      var n := |candidates| - 1;
      ParsedCounts(candidates[..n], v);
      assert candidates == candidates[..n] + [candidates[n]];
    }
  }

  method ParseAll(candidates: seq<Option<Version>>) returns (versions: seq<Version>)
    ensures versions == Parsed(candidates)
  {
    versions := [];
    for i := 0 to |candidates|
      invariant versions == Parsed(candidates[..i])
    {
      assert candidates[..i + 1][..i] == candidates[..i];
      if candidates[i].Some? {
        versions := versions + [candidates[i].value];
      }
    }
    assert candidates[..|candidates|] == candidates;
  }

  method MaxVersion(versions: seq<Version>) returns (m: Version)
    requires versions != []
    ensures IsNewest(versions, m)
  {
    CompareIsPreorder();
    hide Compare;
    m := versions[0];
    for i := 1 to |versions|
      invariant m in versions
      invariant forall j :: 0 <= j < i ==> Compare(versions[j], m) <= 0
    {
      if Compare(versions[i], m) > 0 {
        m := versions[i];
      }
    }
  }

  /** What the registry answers when it is asked for the tags of the imager: they parse as versions or do not. */
  datatype Listing = ListFails | Candidates(tags: seq<Option<Version>>)

  /** `slices.MaxFunc` panics when there is no candidate at all. */
  datatype Outcome = Fetched | ListingFailed | Panics

  datatype Got = Got(versions: array<Version>) | NotGot(outcome: Outcome)

  function FetchOutcome(listing: Listing): Outcome {
    if listing.ListFails? then ListingFailed else if Parsed(listing.tags) == [] then Panics else Fetched
  }

  class Manager {
    const options: Options
    const recheckInterval: int
    var talosVersions: array<Version>
    var fetchedAt: Option<int>
    ghost var source: seq<Version>  // the candidates of the last fetch

    constructor (options: Options, recheckInterval: int)
      ensures this.options == options && this.recheckInterval == recheckInterval
      ensures Valid() && fresh(talosVersions) && fetchedAt == None && source == []
    {
      this.options, this.recheckInterval := options, recheckInterval;
      talosVersions := new Version[] [];
      fetchedAt := None;
      source := [];
    }

    /** What is stored is the list of what was found last. */
    ghost predicate Valid()
      reads this, talosVersions
    {
      && (fetchedAt.None? ==> talosVersions[..] == [] && source == [])
      && (fetchedAt.Some? ==>
          Sorted(Compare, talosVersions[..]) && ListOf(options, source, multiset(talosVersions[..])))
    }

    predicate Stale(now: int)
      reads this
    {
      fetchedAt.None? || now - fetchedAt.value >= recheckInterval
    }

    /** Stores, in order of precedence, exactly the candidates that are to be listed, each as often as it was found;
    without any candidate, or without an answer, the list stays as it was. */
    method FetchTalosVersions(listing: Listing, now: int) returns (outcome: Outcome)
      requires Valid()
      modifies this
      ensures Valid() && outcome == FetchOutcome(listing)
      ensures !outcome.Fetched? ==>
        talosVersions == old(talosVersions) && fetchedAt == old(fetchedAt) && source == old(source)
      ensures outcome.Fetched? ==>
        && fresh(talosVersions) && fetchedAt == Some(now) && source == Parsed(listing.tags)
        && Sorted(Compare, talosVersions[..])
        && ListOf(options, Parsed(listing.tags), multiset(talosVersions[..]))
    {
      hide Kept, Parsed, Sorted;
      if listing.ListFails? {
        return ListingFailed;
      }
      var versions := ParseAll(listing.tags);
      if |versions| == 0 {
        return Panics;
      }
      var newest := MaxVersion(versions);
      var kept := Filter(options, newest, versions);
      CompareIsPreorder();
      var sorted := Sort(Compare, kept);
      talosVersions := new Version[|sorted|](i requires 0 <= i < |sorted| => sorted[i]);
      assert talosVersions[..] == sorted;
      fetchedAt, source := Some(now), versions;
      outcome := Fetched;
    }

    /** The caller gets a list of its own: of what is found now if the stored list is stale, and else the stored one. */
    method GetTalosVersions(now: int, listing: Listing) returns (got: Got)
      requires Valid()
      modifies this
      ensures Valid()
      ensures got.NotGot? <==> old(Stale(now)) && FetchOutcome(listing) != Fetched
      ensures got.NotGot? ==> got.outcome == FetchOutcome(listing)
      ensures got.Got? ==>
        fresh(got.versions) && got.versions != talosVersions && fetchedAt.Some? && got.versions[..] == talosVersions[..]
      ensures source == if old(Stale(now)) && FetchOutcome(listing) == Fetched then Parsed(listing.tags)
          else old(source)
      ensures talosVersions == old(talosVersions) || fresh(talosVersions)
      ensures var recent := old(fetchedAt.Some? && now - fetchedAt.value < recheckInterval);
        && (recent ==> got.Got? && talosVersions == old(talosVersions) && fetchedAt == old(fetchedAt))
        && (!recent && got.Got? ==> fetchedAt == Some(now))
    {
      hide Sorted, ListOf, FetchOutcome;
      if Stale(now) {
        var outcome := FetchTalosVersions(listing, now);
        if !outcome.Fetched? {
          return NotGot(outcome);
        }
      }
      var versions :=
        new Version[talosVersions.Length](i requires 0 <= i < talosVersions.Length reads this, talosVersions =>
                                                         talosVersions[i]);
      got := Got(versions);
    }
  }

  /** The candidates whose text is a version. */
  function Parsed(candidates: seq<Option<Version>>): seq<Version> {
    if candidates == [] then []
    else
      var rest := Parsed(candidates[..|candidates| - 1]);
      match candidates[|candidates| - 1]
      case None => rest
      case Some(v) => rest + [v]
  }

  /** Fetching panics exactly when the registry answers and none of its tags is a version, as without any tag. */
  lemma {:induction false} PanicsIff(tags: seq<Option<Version>>)
    ensures FetchOutcome(Candidates(tags)) == Panics <==> forall t :: t in tags ==> t.None?
    ensures FetchOutcome(Candidates([])) == Panics
  {
    if tags != [] {
      PanicsIff(tags[..|tags| - 1]);
      assert tags == tags[..|tags| - 1] + [tags[|tags| - 1]];
    }
  }

  method SortVersions(a: array<Version>)
    modifies a
    ensures Sorted(Compare, a[..]) && multiset(a[..]) == multiset(old(a[..]))
  {
    CompareIsPreorder();
    var sorted := Sort(Compare, a[..]);
    assert |multiset(sorted)| == |multiset(a[..])|;
    forall i | 0 <= i < a.Length {
      a[i] := sorted[i];
    }
    assert a[..] == sorted;
  }

  method Reverse(a: array<Version>)
    modifies a
    ensures forall i :: 0 <= i < a.Length ==> a[i] == old(a[a.Length - 1 - i])
  {
    var n := a.Length;
    for i := 0 to n / 2
      invariant forall k :: 0 <= k < i ==> a[k] == old(a[n - 1 - k]) && a[n - 1 - k] == old(a[k])
      invariant forall k :: i <= k < n - i ==> a[k] == old(a[k])
    {
      a[i], a[n - 1 - i] := a[n - 1 - i], a[i];
    }
  }

  ghost predicate IsLatest(listed: seq<Version>, v: Version) {
    v in listed && Stable(v) && forall w :: w in listed && Stable(w) ==> Compare(w, v) <= 0
  }

  /** A stable version that is not too old, and not broken. */
  predicate Eligible(options: Options, v: Version) {
    Stable(v) && Compare(v, options.min) >= 0 && forall b :: b in options.broken ==> Compare(v, b) != 0
  }

  /** An eligible version that no eligible one exceeds. */
  ghost predicate LatestOf(options: Options, versions: seq<Version>, v: Version) {
    v in versions && Eligible(options, v) && forall w :: w in versions && Eligible(options, w) ==> Compare(w, v) <= 0
  }

  ghost predicate SomeEligible(options: Options, versions: seq<Version>) {
    exists v :: v in versions && Eligible(options, v)
  }

  /** Of the list, the stable ones are the eligible candidates. */
  lemma ListedStable(options: Options, versions: seq<Version>, listed: seq<Version>, v: Version)
    requires ListOf(options, versions, multiset(listed))
    ensures v in listed && Stable(v) <==> v in versions && Eligible(options, v)
  {
    var newest :| IsNewest(versions, newest) && Kept(options, newest, versions, multiset(listed));
    hide Compare, IsNewest;
    assert v in versions <==> v in multiset(versions);
    assert v in listed <==> v in multiset(listed);
  }

  /** The latest of the list is the latest of the candidates. */
  lemma LatestIsOfCandidates(options: Options, versions: seq<Version>, listed: seq<Version>)
    requires ListOf(options, versions, multiset(listed))
    ensures forall v :: IsLatest(listed, v) <==> LatestOf(options, versions, v)
    ensures (exists v :: v in listed && Stable(v)) <==> SomeEligible(options, versions)
  {
    hide ListOf, Eligible, Compare;
    forall v ensures v in listed && Stable(v) <==> v in versions && Eligible(options, v) {
      ListedStable(options, versions, listed, v);
    }
  }

  /** What "latest" comes to: a version, no stable one, or no list. */
  datatype Latest = Latest(version: Version) | NoStable | NoList(outcome: Outcome)

  /** "latest" resolves to an eligible candidate that no eligible candidate exceeds, if the registry lists any; the
  manager's own list is not touched by sorting and reversing the copy. */
  method ResolveLatest(manager: Manager, now: int, listing: Listing) returns (latest: Latest)
    requires manager.Valid()
    modifies manager
    ensures manager.Valid()
    ensures manager.source == if old(manager.Stale(now)) && FetchOutcome(listing) == Fetched then Parsed(listing.tags)
                              else old(manager.source)
    ensures latest.NoList? <==> old(manager.Stale(now)) && FetchOutcome(listing) != Fetched
    ensures latest.NoList? ==> latest.outcome == FetchOutcome(listing)
    ensures !latest.NoList? ==> (latest.Latest? <==> SomeEligible(manager.options, manager.source))
    ensures latest.Latest? ==> LatestOf(manager.options, manager.source, latest.version)
  {
    hide Sorted, IsLatest, LatestOf, SomeEligible, ListOf, FetchOutcome;
    var got := manager.GetTalosVersions(now, listing);
    if got.NotGot? {
      return NoList(got.outcome);
    }
    var ver := got.versions;
    ghost var listed := ver[..];
    LatestIsOfCandidates(manager.options, manager.source, listed);
    SortVersions(ver);
    ghost var sorted := ver[..];
    SameElements(listed, sorted);
    Reverse(ver);
    var first := FirstStable(ver, sorted);
    if first.None? {
      return NoStable;
    }
    StableMaximum(listed, sorted, first.value);
    assert first.value in listed && Stable(first.value) by { LatestIsListed(listed, first.value); }
    latest := Latest(first.value);
  }

  lemma LatestIsListed(listed: seq<Version>, v: Version)
    requires IsLatest(listed, v)
    ensures v in listed && Stable(v)
  {
  }

  lemma SameElements(a: seq<Version>, b: seq<Version>)
    requires multiset(a) == multiset(b)
    ensures forall v :: v in a <==> v in b
  {
    assert forall v :: v in a <==> v in multiset(a);
    assert forall v :: v in b <==> v in multiset(b);
  }

  /** The first stable version of a list that is `sorted` backwards. */
  method FirstStable(ver: array<Version>, ghost sorted: seq<Version>) returns (first: Option<Version>)
    requires |sorted| == ver.Length && forall k :: 0 <= k < |sorted| ==> ver[k] == sorted[|sorted| - 1 - k]
    ensures first.None? <==> forall v :: v in sorted ==> !Stable(v)
    ensures first.Some? ==> LastStable(sorted, first.value)
  {
    first := None;
    for i := 0 to ver.Length
      invariant forall j :: 0 <= j < i ==> !Stable(ver[j])
    {
      if |ver[i].pre| == 0 {
        ghost var k := |sorted| - 1 - i;
        assert forall j :: k < j < |sorted| ==> sorted[j] == ver[|sorted| - 1 - j];
        assert sorted[k] in sorted && Stable(sorted[k]);
        return Some(ver[i]);
      }
    }
    assert forall j :: 0 <= j < |sorted| ==> sorted[j] == ver[|sorted| - 1 - j];
  }

  ghost predicate LastStable(sorted: seq<Version>, v: Version) {
    exists k :: 0 <= k < |sorted| && v == sorted[k] && Stable(v) && forall j :: k < j < |sorted| ==> !Stable(sorted[j])
  }

  /** In a sorted list the last stable version is the latest. */
  lemma StableMaximum(listed: seq<Version>, sorted: seq<Version>, v: Version)
    requires Sorted(Compare, sorted) && forall w :: w in listed <==> w in sorted
    requires LastStable(sorted, v)
    ensures IsLatest(listed, v)
  {
    CompareIsPreorder();
    hide Compare;
    var k :| 0 <= k < |sorted| && v == sorted[k] && Stable(v) && forall j :: k < j < |sorted| ==> !Stable(sorted[j]);
    forall w | w in listed && Stable(w) ensures Compare(w, v) <= 0 {
      var j :| 0 <= j < |sorted| && sorted[j] == w;
      assert j == k ==> Compare(w, v) == 0;
    }
  }

  /** "latest" has something to resolve to exactly when some stable candidate is at or above the minimum and not
  broken. */
  lemma LatestExistsIff(options: Options, versions: seq<Version>)
    ensures (exists v :: LatestOf(options, versions, v)) <==> SomeEligible(options, versions)
  {
    hide Eligible, Compare;
    if SomeEligible(options, versions) {
      var v := MaxEligible(options, versions);
      assert LatestOf(options, versions, v);
    }
  }

  lemma {:induction false} MaxEligible(options: Options, versions: seq<Version>) returns (m: Version)
    requires SomeEligible(options, versions)
    ensures LatestOf(options, versions, m)
  {
    CompareIsPreorder();
    hide Eligible, Compare;
    var rest, last := versions[..|versions| - 1], versions[|versions| - 1];
    assert versions == rest + [last];
    if SomeEligible(options, rest) {
      m := MaxEligible(options, rest);
      if Eligible(options, last) && Compare(last, m) > 0 {
        m := last;
      }
    } else {
      m := last;
      assert Compare(m, m) <= 0;
    }
  }
}
