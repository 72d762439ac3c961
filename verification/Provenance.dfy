/** The dependencies and subjects of an Installer's provenance (internal/installer/provenance.go). */
module Provenance {
  import opened Strings
  import opened Ordering

  datatype Dependency = Dependency(uri: string, name: string, mediaType: string, digest: map<string, string>)

  // ---------------------------------------------------------------- the order of dependencies

  ghost predicate IsLeast(keys: set<string>, x: string) {
    x in keys && forall y :: y in keys ==> CompareStrings(x, y) <= 0
  }

  lemma {:induction false} HasLeast(keys: set<string>)
    requires keys != {}
    ensures exists x :: x in keys && IsLeast(keys, x)
  {
    CompareStringsIsTotalOrder();
    hide CompareStrings;
    var k :| k in keys;
    if keys == {k} {
      assert IsLeast(keys, k);
    } else {
      HasLeast(keys - {k});
      var m :| m in keys - {k} && IsLeast(keys - {k}, m);
      var x := if CompareStrings(m, k) <= 0 then m else k;
      forall y | y in keys ensures CompareStrings(x, y) <= 0 {
        assert y == k || y in keys - {k};
      }
      assert IsLeast(keys, x);
    }
  }

  function Least(keys: set<string>): (x: string)
    requires keys != {}
    ensures x in keys && forall y :: y in keys ==> CompareStrings(x, y) <= 0
  {
    CompareStringsIsTotalOrder();
    HasLeast(keys);
    var x :| x in keys && forall y :: y in keys ==> CompareStrings(x, y) <= 0;
    x
  }

  /** The keys of a digest map in order. */
  function SortedKeys(keys: set<string>): (r: seq<string>)
    ensures StrictlySorted(CompareStrings, r)
    ensures forall x :: x in r <==> x in keys
  {
    if keys == {} then []
    else
      CompareStringsIsTotalOrder();
      var x := Least(keys);
      var rest := SortedKeys(keys - {x});
      assert forall i :: 0 <= i < |rest| ==> CompareStrings(x, rest[i]) < 0 by {
        hide CompareStrings;
        assert forall i :: 0 <= i < |rest| ==> rest[i] in keys - {x};
      }
      [x] + rest
  }

  function Values(digest: map<string, string>, keys: seq<string>): seq<string>
    requires forall k :: k in keys ==> k in digest
  {
    seq(|keys|, i requires 0 <= i < |keys| => digest[keys[i]])
  }

  /** A dependency as the lists that are compared one after the other. */
  function Flat(d: Dependency): seq<seq<string>> {
    var keys := SortedKeys(d.digest.Keys);
    [[d.uri], [d.name], [d.mediaType], keys, Values(d.digest, keys)]
  }

  function Compare(a: Dependency, b: Dependency): int { Lex(CompareStringLists, Flat(a), Flat(b)) }

  lemma FlatInjective(a: Dependency, b: Dependency)
    ensures Flat(a) == Flat(b) <==> a == b
  {
    hide SortedKeys, Values;
    var x, y := Flat(a), Flat(b);
    if x == y {
      assert x[0][0] == y[0][0] && x[1][0] == y[1][0] && x[2][0] == y[2][0] && x[3] == y[3] && x[4] == y[4];
      DigestFromLists(a.digest, b.digest, SortedKeys(a.digest.Keys));
    }
  }

  /** A map is determined by a list of its keys and their values. */
  lemma DigestFromLists(a: map<string, string>, b: map<string, string>, keys: seq<string>)
    requires forall k :: k in keys <==> k in a
    requires forall k :: k in keys <==> k in b
    requires Values(a, keys) == Values(b, keys)
    ensures a == b
  {
    var x, y := Values(a, keys), Values(b, keys);
    forall k | k in keys ensures a[k] == b[k] {
      var i :| 0 <= i < |keys| && keys[i] == k;
      assert x[i] == a[k] && y[i] == b[k];
    }
    assert a.Keys == b.Keys;
  }

  /** The comparison ranks every two dependencies, and ranks them equal only if they are, digest maps included. */
  lemma CompareIsTotalOrder()
    ensures TotalOrder(Compare)
  {
    CompareStringListsIsTotalOrder();
    hide CompareStringLists, Flat, Lex;
    forall a, b ensures Compare(a, b) < 0 <==> Compare(b, a) > 0 {
      LexAntisymmetric(CompareStringLists, Flat(a), Flat(b));
    }
    forall a, b ensures Compare(a, b) == 0 <==> a == b {
      LexZero(CompareStringLists, Flat(a), Flat(b));
      FlatInjective(a, b);
    }
    forall a, b, c | Compare(a, b) <= 0 && Compare(b, c) <= 0 ensures Compare(a, c) <= 0 {
      LexTransitive(CompareStringLists, Flat(a), Flat(b), Flat(c));
    }
  }

  /** A list of algorithms comes before another one if it begins it, or has the lesser one where they first differ. */
  ghost predicate ListBefore(a: seq<string>, b: seq<string>) {
    || (a <= b && a != b)
    || exists k :: 0 <= k < |a| && k < |b| && a[..k] == b[..k] && StringBefore(a[k], b[k])
  }

  /** With the same algorithms, the lesser digest under the first one that they differ in decides. */
  ghost predicate DigestBefore(a: map<string, string>, b: map<string, string>) {
    exists x :: x in a && x in b && StringBefore(a[x], b[x])
                && forall y :: y in a && y in b && StringBefore(y, x) ==> a[y] == b[y]
  }

  /** Dependencies are in order of their URIs, then names, media types, algorithms and digests. */
  lemma CompareIff(a: Dependency, b: Dependency)
    ensures Compare(a, b) < 0 <==>
      || StringBefore(a.uri, b.uri)
      || (a.uri == b.uri && StringBefore(a.name, b.name))
      || (a.uri == b.uri && a.name == b.name && StringBefore(a.mediaType, b.mediaType))
      || (a.uri == b.uri && a.name == b.name && a.mediaType == b.mediaType
            && if a.digest.Keys == b.digest.Keys then DigestBefore(a.digest, b.digest)
               else ListBefore(SortedKeys(a.digest.Keys), SortedKeys(b.digest.Keys)))
  {
    CompareUnfolds(a, b);
    CompareStringsIsTotalOrder();
    CompareStringListsIsTotalOrder();
    CompareStringsIff(a.uri, b.uri);
    CompareStringsIff(a.name, b.name);
    CompareStringsIff(a.mediaType, b.mediaType);
    var x, y := SortedKeys(a.digest.Keys), SortedKeys(b.digest.Keys);
    ListsIff(x, y);
    if a.digest.Keys == b.digest.Keys {
      DigestsIff(a.digest, b.digest);
    } else {
      var k :| k in a.digest.Keys <==> k !in b.digest.Keys;
      assert k in x <==> k !in y;
    }
    hide CompareStrings, CompareStringLists, StringBefore, ListBefore, DigestBefore, SortedKeys, Values, Compare;
  }

  lemma ListsIff(a: seq<string>, b: seq<string>)
    ensures CompareStringLists(a, b) < 0 <==> ListBefore(a, b)
  {
    CompareStringsIsTotalOrder();
    hide CompareStrings;
    LexIff(CompareStrings, a, b);
    forall k | 0 <= k < |a| && k < |b| ensures CompareStrings(a[k], b[k]) < 0 <==> StringBefore(a[k], b[k]) {
      CompareStringsIff(a[k], b[k]);
    }
    hide StringBefore, Lex;
  }

  lemma DigestsIff(a: map<string, string>, b: map<string, string>)
    requires a.Keys == b.Keys
    ensures var keys := SortedKeys(a.Keys);
      CompareStringLists(Values(a, keys), Values(b, keys)) < 0 <==> DigestBefore(a, b)
  {
    var keys := SortedKeys(a.Keys);
    SortedKeysOf(a);
    SortedKeysOf(b);
    ListsIff(Values(a, keys), Values(b, keys));
    hide StringBefore, CompareStringLists, SortedKeys, Values, ListBefore, DigestBefore, KeysOf;
    if ListBefore(Values(a, keys), Values(b, keys)) {
      DigestOfList(a, b, keys);
    }
    if DigestBefore(a, b) {
      ListOfDigest(a, b, keys);
    }
  }

  lemma SortedKeysOf(a: map<string, string>)
    ensures KeysOf(SortedKeys(a.Keys), a)
  {
    hide StringBefore, SortedKeys, CompareStrings, StrictlySorted;
    var keys := SortedKeys(a.Keys);
    forall i, j | 0 <= i < |keys| && 0 <= j < |keys| ensures StringBefore(keys[j], keys[i]) <==> j < i {
      KeyBefore(keys, i, j);
    }
  }

  lemma KeyBefore(keys: seq<string>, i: nat, j: nat)
    requires StrictlySorted(CompareStrings, keys) && i < |keys| && j < |keys|
    ensures StringBefore(keys[j], keys[i]) <==> j < i
  {
    CompareStringsIsTotalOrder();
    CompareStringsIff(keys[j], keys[i]);
    hide CompareStrings, StringBefore;
  }

  ghost predicate KeysOf(keys: seq<string>, a: map<string, string>) {
    && (forall x :: x in keys <==> x in a)
    && (forall i, j :: 0 <= i < |keys| && 0 <= j < |keys| ==> (StringBefore(keys[j], keys[i]) <==> j < i))
  }

  lemma DigestOfList(a: map<string, string>, b: map<string, string>, keys: seq<string>)
    requires KeysOf(keys, a) && KeysOf(keys, b) && ListBefore(Values(a, keys), Values(b, keys))
    ensures DigestBefore(a, b)
  {
    hide StringBefore;
    var u, v := Values(a, keys), Values(b, keys);
    var k :| 0 <= k < |u| && k < |v| && u[..k] == v[..k] && StringBefore(u[k], v[k]);
    assert u[k] == a[keys[k]] && v[k] == b[keys[k]];
    forall y | y in a && y in b && StringBefore(y, keys[k]) ensures a[y] == b[y] {
      var j :| 0 <= j < |keys| && keys[j] == y;
      assert u[..k][j] == v[..k][j];
    }
  }

  lemma ListOfDigest(a: map<string, string>, b: map<string, string>, keys: seq<string>)
    requires KeysOf(keys, a) && KeysOf(keys, b) && DigestBefore(a, b)
    ensures ListBefore(Values(a, keys), Values(b, keys))
  {
    hide StringBefore;
    var u, v := Values(a, keys), Values(b, keys);
    var x :| x in a && x in b && StringBefore(a[x], b[x])
             && forall y :: y in a && y in b && StringBefore(y, x) ==> a[y] == b[y];
    var k :| 0 <= k < |keys| && keys[k] == x;
    assert u[k] == a[x] && v[k] == b[x];
    forall j | 0 <= j < k ensures u[j] == v[j] {
      assert StringBefore(keys[j], x);
    }
    assert u[..k] == v[..k];
  }

  // ---------------------------------------------------------------- the comparison as it runs

  /** The keys of a map in the order of iteration, whatever it is, and then sorted. */
  method Algorithms(digest: map<string, string>) returns (algorithms: seq<string>)
    ensures algorithms == SortedKeys(digest.Keys)
  {
    hide CompareStrings;
    var todo := digest.Keys;
    var found: seq<string> := [];
    while todo != {}
      invariant todo <= digest.Keys
      invariant multiset(found) == multiset(digest.Keys - todo)
      decreases |todo|
    {
      var k :| k in todo;
      found := found + [k];
      assert digest.Keys - (todo - {k}) == (digest.Keys - todo) + {k};
      todo := todo - {k};
    }
    assert digest.Keys - {} == digest.Keys;
    algorithms := SortStrings(found);
    KeysSortUniquely(digest.Keys, algorithms);
  }

  lemma {:induction false} KeysOnce(keys: set<string>)
    ensures multiset(SortedKeys(keys)) == multiset(keys)
  {
    hide CompareStrings, StrictlySorted;
    if keys != {} {
      var x := Least(keys);
      KeysOnce(keys - {x});
      assert multiset(keys) == multiset(keys - {x}) + multiset{x};
    }
  }

  lemma KeysSortUniquely(keys: set<string>, sorted: seq<string>)
    requires Sorted(CompareStrings, sorted) && multiset(sorted) == multiset(keys)
    ensures sorted == SortedKeys(keys)
  {
    CompareStringsIsTotalOrder();
    KeysOnce(keys);
    hide CompareStrings;
    SortedPermutationUnique(CompareStrings, sorted, SortedKeys(keys));
  }

  method CompareResolvedDependencies(a: Dependency, b: Dependency) returns (r: int)
    ensures r == Compare(a, b)
  {
    hide CompareStrings, SortedKeys, Values;
    var fa, fb := [a.uri, a.name, a.mediaType], [b.uri, b.name, b.mediaType];
    CompareUnfolds(a, b);
    for i := 0 to 3
      invariant forall j :: 0 <= j < i ==> CompareStrings(fa[j], fb[j]) == 0
    {
      r := CompareStrings(fa[i], fb[i]);
      if r != 0 {
        assert i >= 1 ==> CompareStrings(fa[0], fb[0]) == 0;
        assert i >= 2 ==> CompareStrings(fa[1], fb[1]) == 0;
        return;
      }
    }
    assert CompareStrings(fa[0], fb[0]) == 0 && CompareStrings(fa[1], fb[1]) == 0 && CompareStrings(fa[2], fb[2]) == 0;
    var aAlgorithms := Algorithms(a.digest);
    var bAlgorithms := Algorithms(b.digest);
    r := CompareStringLists(aAlgorithms, bAlgorithms);
    if r != 0 {
      return;
    }
    SameKeys(a, b);
    r := CompareValues(a.digest, b.digest, aAlgorithms);
  }

  /** Compares the digests of the common algorithms in order. */
  method CompareValues(a: map<string, string>, b: map<string, string>, keys: seq<string>) returns (r: int)
    requires forall k :: k in keys ==> k in a && k in b
    ensures r == CompareStringLists(Values(a, keys), Values(b, keys))
  {
    hide CompareStrings;
    var x, y := Values(a, keys), Values(b, keys);
    for i := 0 to |keys|
      invariant CompareStringLists(x, y) == CompareStringLists(x[i..], y[i..])
    {
      r := CompareStrings(a[keys[i]], b[keys[i]]);
      if r != 0 {
        return;
      }
      assert x[i..][1..] == x[i + 1..] && y[i..][1..] == y[i + 1..];
    }
    r := 0;
  }

  lemma SameKeys(a: Dependency, b: Dependency)
    requires CompareStringLists(SortedKeys(a.digest.Keys), SortedKeys(b.digest.Keys)) == 0
    ensures SortedKeys(a.digest.Keys) == SortedKeys(b.digest.Keys)
  {
    CompareStringListsIsTotalOrder();
  }

  /** The comparison, list by list. */
  lemma CompareUnfolds(a: Dependency, b: Dependency)
    ensures var ka, kb := SortedKeys(a.digest.Keys), SortedKeys(b.digest.Keys);
      Compare(a, b) ==
        if CompareStrings(a.uri, b.uri) != 0 then CompareStrings(a.uri, b.uri)
        else if CompareStrings(a.name, b.name) != 0 then CompareStrings(a.name, b.name)
        else if CompareStrings(a.mediaType, b.mediaType) != 0 then CompareStrings(a.mediaType, b.mediaType)
        else if CompareStringLists(ka, kb) != 0 then CompareStringLists(ka, kb)
        else CompareStringLists(Values(a.digest, ka), Values(b.digest, kb))
  {
    hide CompareStrings, SortedKeys, Values, CompareStringLists;
    SingleList(a.uri, b.uri);
    SingleList(a.name, b.name);
    SingleList(a.mediaType, b.mediaType);
    var x, y := Flat(a), Flat(b);
    LexStep(x, y);
    LexStep(x[1..], y[1..]);
    LexStep(x[2..], y[2..]);
    LexStep(x[3..], y[3..]);
    LexStep(x[4..], y[4..]);
    assert Lex(CompareStringLists, x[5..], y[5..]) == 0;
  }

  lemma SingleList(s: string, t: string)
    ensures CompareStringLists([s], [t]) == CompareStrings(s, t)
  {
    hide CompareStrings;
    assert [s][1..] == [] && [t][1..] == [];
    assert Lex(CompareStrings, [s][1..], [t][1..]) == 0;
  }

  lemma LexStep(x: seq<seq<string>>, y: seq<seq<string>>)
    requires x != [] && y != []
    ensures var c := CompareStringLists(x[0], y[0]);
      Lex(CompareStringLists, x, y) == if c != 0 then c else Lex(CompareStringLists, x[1..], y[1..])
  {
    hide CompareStringLists;
  }

  // ---------------------------------------------------------------- normal form

  /** A strictly increasing list with the elements of `deps`: there is just one. */
  ghost predicate NormalForm(deps: seq<Dependency>, r: seq<Dependency>) {
    StrictlySorted(Compare, r) && forall d :: d in r <==> d in deps
  }

  /** The recorded dependencies depend only on the set of what was resolved: neither order nor repetition matters. */
  lemma NormalFormOfTheSet(a: seq<Dependency>, b: seq<Dependency>, x: seq<Dependency>, y: seq<Dependency>)
    requires NormalForm(a, x) && NormalForm(b, y)
    ensures x == y <==> forall d :: d in a <==> d in b
  {
    CompareIsTotalOrder();
    hide Compare;
    if forall d :: d in a <==> d in b {
      StrictlySortedUnique(Compare, x, y);
    }
  }

  /** Clones, sorts and compacts; what was resolved is left as it is. */
  method NormalizeDependencies(resolved: array<Dependency>) returns (dependencies: seq<Dependency>)
    ensures NormalForm(resolved[..], dependencies)
    ensures resolved[..] == old(resolved[..])
  {
    CompareIsTotalOrder();
    hide Compare;
    var clone := resolved[..];
    var sorted := Sort(Compare, clone);
    dependencies := Compact(sorted);
    assert forall d :: d in clone <==> d in multiset(clone);
    assert forall d :: d in sorted <==> d in multiset(sorted);
  }

  /** Keeps the first of every run of equal dependencies. */
  method Compact(sorted: seq<Dependency>) returns (kept: seq<Dependency>)
    requires Sorted(Compare, sorted)
    ensures NormalForm(sorted, kept)
  {
    hide Compacted, Compare, Sorted;
    kept := [];
    NothingCompacted(sorted);
    for i := 0 to |sorted|
      invariant Compacted(sorted, i, kept)
    {
      var same := i > 0;
      if i > 0 {
        var c := CompareResolvedDependencies(sorted[i - 1], sorted[i]);
        same := c == 0;
      }
      CompactNext(sorted, i, kept);
      if !same {
        kept := kept + [sorted[i]];
      }
    }
    AllCompacted(sorted, kept);
  }

  /** The first `i` of a sorted list, compacted. */
  ghost predicate Compacted(sorted: seq<Dependency>, i: nat, kept: seq<Dependency>)
    requires i <= |sorted|
  {
    && StrictlySorted(Compare, kept)
    && (forall d :: d in kept <==> d in sorted[..i])
    && (if i == 0 then kept == [] else kept != [] && kept[|kept| - 1] == sorted[i - 1])
  }

  lemma NothingCompacted(sorted: seq<Dependency>)
    ensures Compacted(sorted, 0, [])
  {
  }

  lemma AllCompacted(sorted: seq<Dependency>, kept: seq<Dependency>)
    requires Compacted(sorted, |sorted|, kept)
    ensures NormalForm(sorted, kept)
  {
    assert sorted[..|sorted|] == sorted;
  }

  lemma CompactNext(sorted: seq<Dependency>, i: nat, kept: seq<Dependency>)
    requires Sorted(Compare, sorted) && i < |sorted| && Compacted(sorted, i, kept)
    ensures Compacted(sorted, i + 1,
      if i > 0 && Compare(sorted[i - 1], sorted[i]) == 0 then kept else kept + [sorted[i]])
  {
    assert i > 0 ==> Compare(sorted[i - 1], sorted[i]) <= 0;
    assert i > 0 && Compare(sorted[i - 1], sorted[i]) == 0 ==> sorted[i - 1] == sorted[i] by { CompareIsTotalOrder(); }
    hide Compare, Sorted;
    assert sorted[..i + 1] == sorted[..i] + [sorted[i]];
    if i == 0 || Compare(sorted[i - 1], sorted[i]) < 0 {
      AppendStrict(kept, sorted[i]);
      hide StrictlySorted;
    } else {
      hide StrictlySorted;
    }
  }

  lemma AppendStrict(kept: seq<Dependency>, d: Dependency)
    requires StrictlySorted(Compare, kept) && (kept == [] || Compare(kept[|kept| - 1], d) < 0)
    ensures StrictlySorted(Compare, kept + [d])
  {
    CompareIsTotalOrder();
    hide Compare;
    forall j | 0 <= j < |kept| ensures Compare(kept[j], d) < 0 {
      var last := kept[|kept| - 1];
      if j < |kept| - 1 {
        StrictlyTransitive(Compare, kept[j], last, d);
      }
    }
  }

  // ---------------------------------------------------------------- subjects

  /** The subjects are the index and then each platform's image, all with a digest; without one there are no
  subjects. */
  method ProvenanceSubjects(index: string, platforms: seq<string>) returns (subjects: Option<seq<string>>)
    ensures subjects.Some? <==> index != "" && forall p :: p in platforms ==> p != ""
    ensures subjects.Some? ==> subjects.value == [index] + platforms
  {
    if index == "" {
      return None;
    }
    var list := [index];
    for i := 0 to |platforms|
      invariant list == [index] + platforms[..i]
      invariant forall j :: 0 <= j < i ==> platforms[j] != ""
    {
      if platforms[i] == "" {
        assert platforms[i] in platforms;
        return None;
      }
      list := list + [platforms[i]];
    }
    assert platforms[..|platforms|] == platforms;
    subjects := Some(list);
  }
}
