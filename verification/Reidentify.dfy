/** Serving a cached SPDX bundle under another identity (enterprise/spdx/builder/builder.go): the document's name and
namespace are substituted in its text, which must not change its size. */
module Reidentify {
  import opened Strings
  import opened Substitution

  // ---------------------------------------------------------------- the identified bundle

  function DocumentName(id: string, version: string, arch: string): string {
    "talos-" + id + "-" + version + "-" + arch
  }

  /** A bundle that is read through substitutions and still reports the stored size. */
  class IdentifiedBundle {
    const content: string
    const replacements: seq<Replacement>

    ghost predicate Valid() {
      forall r :: r in replacements ==> r.from != "" && |r.from| == |r.to|
    }

    constructor (content: string, replacements: seq<Replacement>)
      ensures this.content == content && this.replacements == replacements
    {
      this.content, this.replacements := content, replacements;
    }

    function Size(): nat { |content| }

    /** What is read has exactly the reported size. */
    method Reader() returns (served: string)
      requires Valid()
      ensures served == Serve(content, replacements) && |served| == Size()
    {
      served := content;
      for i := 0 to |replacements|
        invariant served == Serve(content, replacements[..i]) && |served| == |content|
      {
        assert replacements[..i + 1][..i] == replacements[..i];
        assert replacements[i] in replacements;
        KeepsLength(served, replacements[i].from, replacements[i].to);
        served := ReplaceAll(served, replacements[i].from, replacements[i].to);
      }
      assert replacements[..|replacements|] == replacements;
    }
  }

  /** What parsing a URL yields: its scheme and host, and its text before and after the place where a path is joined. */
  datatype Url = Url(scheme: string, host: string, before: string, after: string)

  /** `strings.Count` for a non-empty text. */
  function Count(s: string, sub: string): nat
    requires sub != ""
  {
    if |s| < |sub| then 0 else if sub <= s then 1 + Count(s[|sub|..], sub) else Count(s[1..], sub)
  }

  /** The external URL has one scheme, and a host. */
  predicate WellFormed(parse: string -> Option<Url>, externalURL: string) {
    && Count(externalURL, "://") == 1
    && parse(externalURL).Some?
    && parse(externalURL).value.scheme != "" && parse(externalURL).value.host != ""
  }

  function Namespace(url: Url, id: string, version: string, arch: string): (r: string)
    ensures r != ""
  {
    url.before + "/spdx/" + id + "/" + version + "/" + arch + url.after
  }

  datatype Identity = Identity(id: string, namespace: string)

  function IdentityOf(url: Url, id: string, version: string, arch: string): Identity {
    Identity(id, Namespace(url, id, version, arch))
  }

  datatype Identified = Identified(bundle: IdentifiedBundle) | MalformedURL | WouldChangeSize

  method BuildDocumentNamespace(parse: string -> Option<Url>, externalURL: string, id: string, version: string,
                                arch: string)
    returns (namespace: Option<string>)
    ensures namespace == if WellFormed(parse, externalURL) then
        Some(Namespace(parse(externalURL).value, id, version, arch))
                         else None
  {
    if Count(externalURL, "://") != 1 {
      return None;
    }
    var u := parse(externalURL);
    if u.None? {
      return None;
    }
    if u.value.scheme == "" || u.value.host == "" {
      return None;
    }
    namespace := Some(Namespace(u.value, id, version, arch));
  }

  /** A bundle is refused exactly when the external URL is malformed or the two ids differ in length; otherwise it is
  read through the two substitutions. */
  method IdentifyAs(parse: string -> Option<Url>, externalURL: string, content: string, sbomHash: string,
                    schematicID: string, version: string, arch: string) returns (result: Identified)
    ensures result.MalformedURL? <==> !WellFormed(parse, externalURL)
    ensures result.WouldChangeSize? <==> WellFormed(parse, externalURL) && |sbomHash| != |schematicID|
    ensures result.Identified? ==>
      && fresh(result.bundle) && result.bundle.Valid() && result.bundle.content == content
      && var url := parse(externalURL).value;
         result.bundle.replacements
         == Substitutions(IdentityOf(url, sbomHash, version, arch), IdentityOf(url, schematicID, version, arch),
                          version, arch)
  {
    hide Count;
    var fromNamespace := BuildDocumentNamespace(parse, externalURL, sbomHash, version, arch);
    if fromNamespace.None? {
      return MalformedURL;
    }
    var toNamespace := BuildDocumentNamespace(parse, externalURL, schematicID, version, arch);
    if toNamespace.None? {
      return MalformedURL;
    }
    var cached, requested := Identity(sbomHash, fromNamespace.value), Identity(schematicID, toNamespace.value);
    result := NewIdentifiedBundle(content, Substitutions(cached, requested, version, arch));
  }

  /** Every substitution must keep the length. */
  method NewIdentifiedBundle(content: string, replacements: seq<Replacement>) returns (result: Identified)
    requires forall r :: r in replacements ==> r.from != ""
    ensures !result.MalformedURL?
    ensures result.WouldChangeSize?
        <==> exists i :: 0 <= i < |replacements| && |replacements[i].from| != |replacements[i].to|
    ensures result.Identified? ==>
      fresh(result.bundle) && result.bundle.Valid()
      && result.bundle.content == content && result.bundle.replacements == replacements
  {
    for i := 0 to |replacements|
      invariant forall j :: 0 <= j < i ==> |replacements[j].from| == |replacements[j].to|
    {
      if |replacements[i].from| != |replacements[i].to| {
        return WouldChangeSize;
      }
    }
    var wrapped := new IdentifiedBundle(content, replacements);
    result := Identified(wrapped);
  }

  function Substitutions(cached: Identity, requested: Identity, version: string, arch: string): (r: seq<Replacement>)
    requires cached.namespace != ""
    ensures |r| == 2 && (|r[0].from| == |r[0].to| <==> |cached.id| == |requested.id|)
    ensures r[1] == Replacement(cached.namespace, requested.namespace) && forall x :: x in r ==> x.from != ""
  {
    [ Replacement(DocumentName(cached.id, version, arch), DocumentName(requested.id, version, arch)),
      Replacement(cached.namespace, requested.namespace) ]
  }

  /** What is served under an identity: name and namespace are replaced, each by the one of the requested identity. */
  function NameReplacement(hash: string, id: string, version: string, arch: string): (r: Replacement)
    ensures r.from != "" && (|r.from| == |r.to| <==> |hash| == |id|)
  {
    Replacement(DocumentName(hash, version, arch), DocumentName(id, version, arch))
  }

  function NamespaceReplacement(url: Url, hash: string, id: string, version: string, arch: string): (r: Replacement)
    ensures r.from != ""
  {
    Replacement(Namespace(url, hash, version, arch), Namespace(url, id, version, arch))
  }

  lemma TheSubstitutions(url: Url, hash: string, id: string, version: string, arch: string)
    ensures Substitutions(IdentityOf(url, hash, version, arch), IdentityOf(url, id, version, arch), version, arch)
         == [NameReplacement(hash, id, version, arch), NamespaceReplacement(url, hash, id, version, arch)]
  {
  }

  // ---------------------------------------------------------------- names do not overlap

  predicate IsArch(arch: string) { arch == "amd64" || arch == "arm64" }

  const PREFIX := "talos-"

  /** Two ids, and a version that contains neither a slash nor the beginning of a name of theirs. */
  predicate Usual(hash: string, id: string, version: string, arch: string) {
    && IsDigest(hash) && IsDigest(id) && IsArch(arch) && '/' !in version
    && (forall j :: 0 <= j < |version| ==> !At(version, j, PREFIX + hash) && !At(version, j, PREFIX + id))
  }

  lemma NameParts(id: string, version: string, arch: string)
    requires IsDigest(id) && IsArch(arch)
    ensures var name, v := DocumentName(id, version, arch), |version|;
      && |name| == 77 + v && name[..70] == PREFIX + id && name[70] == '-' && name[71..71 + v] == version
      && name[71 + v] == '-' && name[72 + v..] == arch
  {
  }

  /** A t is at the beginning of a name or in its version. */
  lemma WhereT(id: string, version: string, arch: string, k: nat)
    requires IsDigest(id) && IsArch(arch)
    ensures var name := DocumentName(id, version, arch);
      k < |name| && name[k] == 't' ==> k == 0 || 71 <= k < 71 + |version|
  {
    var name, v := DocumentName(id, version, arch), |version|;
    NameParts(id, version, arch);
    hide DocumentName;
    if 0 < k < 70 {
      assert name[k] == name[..70][k];
      assert k >= 6 ==> name[k] in id;
    } else if 72 + v <= k < |name| {
      assert name[k] == name[72 + v..][k - 72 - v];
    }
  }

  /** A dash within the first 70 characters of a name is followed by digits only. */
  lemma WhereDash(id: string, version: string, arch: string, o: nat)
    requires IsDigest(id) && IsArch(arch) && o < 70
    ensures var name := DocumentName(id, version, arch);
      |name| > 72 && (name[o] == '-' ==> name[o + 2] != 'm' && name[o + 2] != 'r')
  {
    var name := DocumentName(id, version, arch);
    NameParts(id, version, arch);
    hide DocumentName;
    assert name[o] == name[..70][o];
    assert o >= 6 ==> name[o] in id;
    if o == 5 {
      assert name[7] == name[..70][7];
      assert name[7] in id;
    }
  }

  lemma NameEnd(id: string, version: string, arch: string)
    requires IsDigest(id) && IsArch(arch)
    ensures var name, v := DocumentName(id, version, arch), |version|;
      |name| == 77 + v && name[0] == 't' && name[71 + v] == '-' && (name[73 + v] == 'm' || name[73 + v] == 'r')
  {
    var name, v := DocumentName(id, version, arch), |version|;
    NameParts(id, version, arch);
    hide DocumentName;
    assert name[73 + v] == name[72 + v..][1] && name[0] == name[..70][0];
  }

  lemma VersionPart(id: string, version: string, arch: string, e: nat, n: nat)
    requires IsDigest(id) && IsArch(arch) && 71 <= e && e + n <= 71 + |version|
    ensures |DocumentName(id, version, arch)| == 77 + |version|
    ensures DocumentName(id, version, arch)[e..e + n] == version[e - 71..e - 71 + n]
  {
    var name, v := DocumentName(id, version, arch), |version|;
    NameParts(id, version, arch);
    hide DocumentName;
    var part := name[71..71 + v];
    assert forall i :: 0 <= i < v ==> part[i] == name[71 + i];
    assert name[e..e + n] == part[e - 71..e - 71 + n];
  }

  /** Where an end of one name begins another one, the version contains that one's beginning. */
  lemma NameOverlap(x: string, y: string, version: string, arch: string, e: nat)
    requires IsDigest(x) && IsDigest(y) && IsArch(arch)
    requires var a, b := DocumentName(x, version, arch), DocumentName(y, version, arch);
      0 < e < |a| && |b| == |a| && a[e..] == b[..|a| - e]
    ensures e >= 71 && At(version, e - 71, PREFIX + y)
  {
    var a, b, v := DocumentName(x, version, arch), DocumentName(y, version, arch), |version|;
    var tail := a[e..];
    assert forall i :: 0 <= i < |a| - e ==> a[e + i] == tail[i] == b[i];
    NameEnd(x, version, arch);
    NameEnd(y, version, arch);
    WhereT(x, version, arch, e);
    var o := 71 + v - e;
    if o < 70 {
      WhereDash(y, version, arch, o);
    }
    hide DocumentName, IsDigest, IsArch;
    assert a[e + 0] == b[0] && a[e + o] == b[o] && a[e + (o + 2)] == b[o + 2];
    assert o >= 70;
    VersionPart(x, version, arch, e, 70);
    NameParts(y, version, arch);
    assert a[e..e + 70] == b[..70];
  }

  lemma NamesApart(x: string, y: string, version: string, arch: string)
    requires IsDigest(x) && IsDigest(y) && IsArch(arch)
    requires forall j :: 0 <= j < |version| ==> !At(version, j, PREFIX + y)
    ensures |DocumentName(x, version, arch)| == |DocumentName(y, version, arch)|
    ensures Apart(DocumentName(x, version, arch), DocumentName(y, version, arch))
  {
    var a, b := DocumentName(x, version, arch), DocumentName(y, version, arch);
    NameParts(x, version, arch);
    NameParts(y, version, arch);
    hide DocumentName, At;
    forall e | 0 < e < |a| ensures a[e..] != b[..|a| - e] {
      if a[e..] == b[..|a| - e] {
        NameOverlap(x, y, version, arch, e);
        InRange(version, e - 71, PREFIX + y);
      }
    }
  }

  // ---------------------------------------------------------------- what serving changes

  /** Whatever is stored, serving it under another id changes only occurrences of the stored name and the stored
  namespace, exactly when the namespace contains the stored name, or no overlap of the new name with it does harm. */
  lemma ServingChangesOnlyIdentityIff(url: Url, hash: string, id: string, version: string, arch: string)
    requires Usual(hash, id, version, arch)
    ensures var name, name' := DocumentName(hash, version, arch), DocumentName(id, version, arch);
      var ns, ns' := Namespace(url, hash, version, arch), Namespace(url, id, version, arch);
      && |ns| == |ns'|
      && (OnlyOccurrences(NameReplacement(hash, id, version, arch), NamespaceReplacement(url, hash, id, version, arch))
          <==> Occurs(ns, name) || Harmless(name, name', ns, ns'))
  {
    NamesAreUsual(hash, id, version, arch);
    SlashPlaces(url, hash, version, arch);
    SlashPlaces(url, id, version, arch);
    var name, name' := DocumentName(hash, version, arch), DocumentName(id, version, arch);
    var ns, ns' := Namespace(url, hash, version, arch), Namespace(url, id, version, arch);
    hide DocumentName, Namespace, Harmless, OnlyOccurrences, Occurs;
    assert ns[|url.before|] in ns;
    OnlyOccurrencesIff(name, name', ns, ns');
  }

  lemma NamesAreUsual(hash: string, id: string, version: string, arch: string)
    requires Usual(hash, id, version, arch)
    ensures var name, name' := DocumentName(hash, version, arch), DocumentName(id, version, arch);
      && name != "" && |name| == |name'| && '/' !in name && '/' !in name'
      && Unbordered(name) && Apart(name, name') && Apart(name', name)
  {
    NamesApart(hash, hash, version, arch);
    NamesApart(hash, id, version, arch);
    NamesApart(id, hash, version, arch);
    hide At, Apart;
    NameEnds(hash, version, arch);
    NameEnds(id, version, arch);
  }

  // ---------------------------------------------------------------- names that do no harm

  /** A name without slashes overlaps a namespace at its head, before its first slash, or behind its last one, or lies
  within it. */
  lemma SlashFreeOverlaps(to: string, ns: string, d: int, first: nat, last: nat)
    requires to != "" && '/' !in to && first <= last < |ns| && ns[first] == '/' && ns[last] == '/'
    requires Overlaps(to, ns, d)
    ensures to[|to| - 1] in ns[..first] || to[0] in ns[last + 1..] || At(ns, -d, to)
  {
    assert forall q :: 0 <= q < |ns| && 0 <= q + d < |to| ==> ns[q] == to[q + d];
    assert !(0 <= first + d < |to|) && !(0 <= last + d < |to|);
    if d > 0 {
      assert to[|to| - 1] == ns[..first][|to| - 1 - d];
    } else if -d + |to| <= |ns| {
      assert ns[-d..-d + |to|] == to;
    } else {
      assert to[0] == ns[last + 1..][-d - (last + 1)];
    }
  }

  /** A name that occurs in a namespace occurs in the external URL: it is longer than each part between. */
  lemma InsideNamespace(url: Url, hash: string, id: string, version: string, arch: string, j: int)
    requires |hash| == |id| && '/' !in DocumentName(id, version, arch)
    requires At(Namespace(url, hash, version, arch), j, DocumentName(id, version, arch))
    ensures At(url.before, j, DocumentName(id, version, arch)) || j >= |url.before| + 8 + |hash| + |version|
  {
    var to, ns, n := DocumentName(id, version, arch), Namespace(url, hash, version, arch), |url.before|;
    SlashPlaces(url, hash, version, arch);
    assert |to| == |id| + |version| + |arch| + 8;
    hide DocumentName, Namespace;
    Avoids(ns, j, to, n, '/');
    Avoids(ns, j, to, n + 5, '/');
    Avoids(ns, j, to, n + 6 + |hash|, '/');
    Avoids(ns, j, to, n + 7 + |hash| + |version|, '/');
    if j + |to| <= n {
      assert url.before[j..j + |to|] == ns[j..j + |to|];
    }
  }

  lemma SlashPlaces(url: Url, hash: string, version: string, arch: string)
    ensures var ns, n := Namespace(url, hash, version, arch), |url.before|;
      && |ns| == n + 8 + |hash| + |version| + |arch| + |url.after| && ns[..n] == url.before
      && ns[n] == '/' && ns[n + 5] == '/' && ns[n + 6 + |hash|] == '/' && ns[n + 7 + |hash| + |version|] == '/'
      && ns[n + 6..n + 6 + |hash|] == hash && ns[n + 8 + |hash| + |version|..] == arch + url.after
  {
  }

  /** The external URL has no query, its scheme has no digit 4, and it does not contain the new name. */
  predicate PlainURL(url: Url, name: string) {
    && url.after == ""
    && (exists f :: 0 <= f < |url.before| && url.before[f] == '/' && '4' !in url.before[..f])
    && forall j :: 0 <= j < |url.before| ==> !At(url.before, j, name)
  }

  lemma NameEnds(id: string, version: string, arch: string)
    requires IsArch(arch)
    ensures var name := DocumentName(id, version, arch);
      |name| > 6 && name[0] == 't' && name[|name| - 1] == '4' && 't' !in arch && '/' !in arch
    ensures '/' !in id && '/' !in version ==> '/' !in DocumentName(id, version, arch)
  {
    assert arch[|arch| - 1] == '4';
  }

  lemma OverlapsInURL(url: Url, hash: string, id: string, version: string, arch: string, d: int)
    requires IsArch(arch) && '/' !in id && '/' !in version && |hash| == |id| && url.after == ""
    requires exists f :: 0 <= f < |url.before| && url.before[f] == '/' && '4' !in url.before[..f]
    requires Overlaps(DocumentName(id, version, arch), Namespace(url, hash, version, arch), d)
    ensures At(url.before, -d, DocumentName(id, version, arch))
  {
    var to, ns := DocumentName(id, version, arch), Namespace(url, hash, version, arch);
    var first :| 0 <= first < |url.before| && url.before[first] == '/' && '4' !in url.before[..first];
    var last := |url.before| + 7 + |hash| + |version|;
    NameEnds(id, version, arch);
    SlashPlaces(url, hash, version, arch);
    HeadOf(url, hash, version, arch, first);
    hide *;
    SlashFreeOverlaps(to, ns, d, first, last);
    InsideNamespace(url, hash, id, version, arch, -d);
  }

  lemma HeadOf(url: Url, hash: string, version: string, arch: string, f: nat)
    requires f < |url.before|
    ensures var ns := Namespace(url, hash, version, arch);
      f < |ns| && ns[..f] == url.before[..f] && ns[f] == url.before[f]
  {
    var before := url.before;
    assert Namespace(url, hash, version, arch)[..|before|] == before;
  }

  /** The new name does no harm: it has no slash, ends in the architecture's 4 and begins with a t. */
  lemma NamesAreHarmless(url: Url, hash: string, id: string, version: string, arch: string)
    requires IsArch(arch) && '/' !in id && '/' !in version && |hash| == |id|
    requires PlainURL(url, DocumentName(id, version, arch))
    ensures |Namespace(url, hash, version, arch)| == |Namespace(url, id, version, arch)|
    ensures Harmless(DocumentName(hash, version, arch), DocumentName(id, version, arch),
                     Namespace(url, hash, version, arch), Namespace(url, id, version, arch))
  {
    var to, ns := DocumentName(id, version, arch), Namespace(url, hash, version, arch);
    NameEnds(id, version, arch);
    SlashPlaces(url, hash, version, arch);
    SlashPlaces(url, id, version, arch);
    hide DocumentName, Namespace, Overlaps, At;
    forall d ensures !Overlaps(to, ns, d) {
      NotAt(url.before, -d, to);
      if Overlaps(to, ns, d) {
        OverlapsInURL(url, hash, id, version, arch, d);
      }
    }
  }

  lemma NotAt(s: string, j: int, x: string)
    requires x != "" && forall i :: 0 <= i < |s| ==> !At(s, i, x)
    ensures !At(s, j, x)
  {
  }

  /** The text has one scheme separator, behind a scheme without a digit 4, and does not end in a slash. */
  predicate OneScheme(before: string, f: nat) {
    && At(before, f, "://") && '4' !in before[..f] && before[|before| - 1] != '/'
    && forall j :: 0 <= j < |before| && At(before, j, "://") ==> j == f
  }

  /** Namespaces do not overlap themselves. */
  lemma NamespacesAreUnbordered(url: Url, id: string, version: string, arch: string, f: nat)
    requires IsArch(arch) && url.after == "" && ':' !in id && ':' !in version && OneScheme(url.before, f)
    ensures Unbordered(Namespace(url, id, version, arch))
  {
    var ns := Namespace(url, id, version, arch);
    NamespaceEnds(url, id, version, arch, f);
    hide Namespace, At;
    forall e | 0 < e < |ns| ensures ns[e..] != ns[..|ns| - e] {
      OnlySchemeSeparator(url, id, version, arch, f, e + f);
      if ns[e..] == ns[..|ns| - e] {
        BorderShiftsScheme(ns, e, f);
      }
    }
  }

  lemma NamespaceEnds(url: Url, id: string, version: string, arch: string, f: nat)
    requires IsArch(arch) && url.after == "" && OneScheme(url.before, f)
    ensures var ns := Namespace(url, id, version, arch);
      f < |ns| && ns[|ns| - 1] == '4' && '4' !in ns[..f] && At(ns, f, "://")
  {
    var ns := Namespace(url, id, version, arch);
    SlashPlaces(url, id, version, arch);
    hide Namespace;
    assert ns[|ns| - 1] == arch[|arch| - 1] by {
      assert arch == ns[|url.before| + 8 + |id| + |version|..];
    }
    assert ns[..f] == url.before[..f] by { assert ns[..|url.before|][..f] == ns[..f]; }
    assert ns[f..f + 3] == url.before[f..f + 3] by { assert ns[..|url.before|][f..f + 3] == ns[f..f + 3]; }
  }

  lemma BorderShiftsScheme(ns: string, e: nat, f: nat)
    requires 0 < e < |ns| && ns[e..] == ns[..|ns| - e]
    requires f < |ns| && ns[|ns| - 1] == '4' && '4' !in ns[..f] && At(ns, f, "://")
    ensures At(ns, e + f, "://")
  {
    var n := |ns| - e;
    assert ns[f..f + 3][0] == ns[f] && ns[f..f + 3][1] == ns[f + 1] && ns[f..f + 3][2] == ns[f + 2];
    assert ns[n - 1] == ns[e..][n - 1] == '4';
    forall i | 0 <= i < f ensures ns[i] != '4' {
      assert ns[i] == ns[..f][i];
    }
    assert n >= f + 4;
    assert ns[e + f..e + f + 3] == ns[e..][f..f + 3] == ns[..n][f..f + 3] == ns[f..f + 3];
  }

  lemma OnlySchemeSeparator(url: Url, id: string, version: string, arch: string, f: nat, j: nat)
    requires IsArch(arch) && url.after == "" && ':' !in id && ':' !in version && OneScheme(url.before, f)
    ensures At(Namespace(url, id, version, arch), j, "://") ==> j == f
  {
    var ns, n := Namespace(url, id, version, arch), |url.before|;
    NoColonBehind(url, id, version, arch);
    SchemeBefore(ns, j, n);
    hide Namespace, At;
    if At(ns, j, "://") {
      AtWithin(ns, 0, url.before, j, "://");
      InRange(url.before, j, "://");
    }
  }

  lemma SchemeBefore(s: string, j: int, n: nat)
    requires 0 < n && n + 1 < |s| && s[n - 1] != '/' && s[n + 1] == 's' && forall i :: n <= i < |s| ==> s[i] != ':'
    ensures At(s, j, "://") ==> 0 <= j && j + 3 <= n
  {
    CharacterAt(s, j, "://", 0);
    CharacterAt(s, j, "://", 1);
    CharacterAt(s, j, "://", 2);
  }

  lemma NoColonBehind(url: Url, id: string, version: string, arch: string)
    requires IsArch(arch) && url.after == "" && ':' !in id && ':' !in version && url.before != ""
    ensures var ns, n := Namespace(url, id, version, arch), |url.before|;
      && At(ns, 0, url.before) && |ns| > n + 1 && ns[n + 1] == 's' && ns[n - 1] == url.before[n - 1]
      && forall i :: n <= i < |ns| ==> ns[i] != ':'
  {
    var ns, n := Namespace(url, id, version, arch), |url.before|;
    var tail := "/spdx/" + id + "/" + version + "/" + arch;
    assert ns == url.before + tail;
    assert ':' !in tail && tail[1] == 's';
    hide Namespace;
    forall i | n <= i < |ns| ensures ns[i] != ':' {
      assert ns[i] == tail[i - n];
    }
  }

  /** Whatever is stored, serving it under another id changes only what is in an occurrence of the stored name or of the
  stored namespace. */
  lemma ServingChangesOnlyIdentity(url: Url, hash: string, id: string, version: string, arch: string, content: string,
                                   i: nat)
    requires IsArch(arch) && '/' !in id && '/' !in version && |hash| == |id|
    requires PlainURL(url, DocumentName(id, version, arch))
    requires var served :=
      Serve(content, Substitutions(IdentityOf(url, hash, version, arch), IdentityOf(url, id, version, arch),
                                                        version, arch));
      i < |content| && i < |served| && served[i] != content[i]
    ensures InOccurrence(content, DocumentName(hash, version, arch), i)
         || InOccurrence(content, Namespace(url, hash, version, arch), i)
  {
    NamesAreHarmless(url, hash, id, version, arch);
    SlashPlaces(url, hash, version, arch);
    SlashPlaces(url, id, version, arch);
    hide Serve, Harmless, Namespace, PlainURL;
    ServesOnlyOccurrences(DocumentName(hash, version, arch), DocumentName(id, version, arch),
                          Namespace(url, hash, version, arch), Namespace(url, id, version, arch), content, i);
  }

  // ---------------------------------------------------------------- a name that does harm

  /** An external URL whose query ends as the names of one id begin. */
  function QueryURL(id: string): Url
    requires id != ""
  {
    Url("https", "h", "https://h", "?x=" + PREFIX + [id[0]])
  }

  /** Under such a URL the new name completes the namespace, for any two ids that differ in their first digit: the
  place where the served namespace differs is in no occurrence of what is replaced. */
  lemma QueryExample(hash: string, id: string, version: string, arch: string)
    requires Usual(hash, id, version, arch) && hash[0] != id[0]
    ensures var content := "https://h" + "/spdx/" + hash + "/" + version + "/" + arch + "?x="
                           + DocumentName(hash, version, arch);
      && ChangesAt(content, NameReplacement(hash, id, version, arch),
                   NamespaceReplacement(QueryURL(id), hash, id, version, arch), 15)
      && !InOccurrence(content, DocumentName(hash, version, arch), 15)
      && !InOccurrence(content, Namespace(QueryURL(id), hash, version, arch), 15)
  {
    var url := QueryURL(id);
    var name, name' := DocumentName(hash, version, arch), DocumentName(id, version, arch);
    var ns, ns' := Namespace(url, hash, version, arch), Namespace(url, id, version, arch);
    var a := "https://h" + "/spdx/" + hash + "/" + version + "/" + arch + "?x=";
    var d: int := -|a|;
    NamesAreUsual(hash, id, version, arch);
    QueryNamespace(hash, id, version, arch);
    QueryOverlaps(hash, id, version, arch);
    forall j ensures !At(ns, j, name) { NotInQueryNamespace(hash, id, version, arch, j); }
    hide DocumentName, Namespace, QueryURL, Overlaps, At, Unbordered, Apart;
    Harms(name, name', ns, ns', d, 15);
    QueryAround(a, name, ns, d);
  }

  lemma QueryAround(a: string, name: string, ns: string, d: int)
    requires d == -|a| && a <= ns && |a| < |ns| <= |a| + |name| && name != ""
    ensures Around(name, ns, d) == a + name
  {
    assert ns[..|a|] == a;
    assert a + name + "" == a + name;
  }

  lemma QueryNamespace(hash: string, id: string, version: string, arch: string)
    requires IsDigest(hash) && IsDigest(id) && hash[0] != id[0] && IsArch(arch)
    ensures var a := "https://h" + "/spdx/" + hash + "/" + version + "/" + arch + "?x=";
      var ns, ns' := Namespace(QueryURL(id), hash, version, arch), Namespace(QueryURL(id), id, version, arch);
      && |a| == 89 + |version| && ns == a + (PREFIX + [id[0]]) && |ns| == |ns'| == |a| + 7
      && ns[15] != ns'[15] && '/' in ns
  {
    var url := QueryURL(id);
    var ns, ns' := Namespace(url, hash, version, arch), Namespace(url, id, version, arch);
    SlashPlaces(url, hash, version, arch);
    SlashPlaces(url, id, version, arch);
    assert |url.before| == 9 && |url.after| == 10;
    QueryText(hash, id, version, arch);
    hide Namespace, IsDigest;
    assert ns[15] == ns[15..15 + 64][0] && ns'[15] == ns'[15..15 + 64][0];
    assert ns[9] in ns;
  }

  lemma QueryText(hash: string, id: string, version: string, arch: string)
    requires id != ""
    ensures Namespace(QueryURL(id), hash, version, arch)
         == "https://h" + "/spdx/" + hash + "/" + version + "/" + arch + "?x=" + (PREFIX + [id[0]])
  {
    var front := "https://h" + "/spdx/" + hash + "/" + version + "/" + arch;
    assert "?x=" + PREFIX + [id[0]] == "?x=" + (PREFIX + [id[0]]);
    assert front + ("?x=" + (PREFIX + [id[0]])) == front + "?x=" + (PREFIX + [id[0]]);
  }

  lemma QueryOverlaps(hash: string, id: string, version: string, arch: string)
    requires IsDigest(hash) && IsDigest(id) && hash[0] != id[0] && IsArch(arch)
    ensures var ns := Namespace(QueryURL(id), hash, version, arch);
      && Overlaps(DocumentName(id, version, arch), ns, -(89 + |version|))
      && !Overlaps(DocumentName(hash, version, arch), ns, -(89 + |version|))
  {
    var name, name' := DocumentName(hash, version, arch), DocumentName(id, version, arch);
    var ns, n := Namespace(QueryURL(id), hash, version, arch), 89 + |version|;
    QueryNamespace(hash, id, version, arch);
    NameParts(hash, version, arch);
    NameParts(id, version, arch);
    var query := PREFIX + [id[0]];
    hide DocumentName, Namespace, IsDigest, QueryURL;
    assert ns[n..] == query;
    forall p | 0 <= p < 7 ensures name'[p] == ns[p + n] {
      assert name'[p] == name'[..70][p] == query[p] == ns[n..][p];
    }
    assert name[6] == name[..70][6] && ns[6 + n] == ns[n..][6];
    assert name[6] != ns[6 + n];
  }

  lemma NotInQueryNamespace(hash: string, id: string, version: string, arch: string, j: int)
    requires Usual(hash, id, version, arch)
    ensures !At(Namespace(QueryURL(id), hash, version, arch), j, DocumentName(hash, version, arch))
  {
    var url := QueryURL(id);
    NamesAreUsual(hash, id, version, arch);
    NameParts(hash, version, arch);
    SlashPlaces(url, hash, version, arch);
    assert |url.before| == 9 && |url.after| == 10;
    hide DocumentName, Namespace, QueryURL;
    if At(Namespace(url, hash, version, arch), j, DocumentName(hash, version, arch)) {
      InsideNamespace(url, hash, hash, version, arch, j);
    }
  }

  // ---------------------------------------------------------------- the text of a document

  function HexDigit(n: nat): char
    requires n < 16
  {
    "0123456789abcdef"[n]
  }

  function Unicode(c: char): string
    requires (c as int) < 0x10000
  {
    var n := c as int;
    "\\u" + [HexDigit(n / 4096), HexDigit(n / 256 % 16), HexDigit(n / 16 % 16), HexDigit(n % 16)]
  }

  /** What HTML or JavaScript would take for more than text. */
  predicate Special(c: char) { c == '<' || c == '>' || c == '&' || c == '\U{2028}' || c == '\U{2029}' }

  /** How Go's JSON encoder writes a character of a string. */
  function Escaped(c: char): string {
    if c == '"' || c == '\\' then ['\\', c]
    else if c == '\n' then "\\n"
    else if c == '\r' then "\\r"
    else if c == '\t' then "\\t"
    else if c == '\U{8}' then "\\b"
    else if c == '\U{C}' then "\\f"
    else if c < ' ' || Special(c) then Unicode(c)
    else [c]
  }

  function Encoded(s: string): string { if s == "" then "" else Escaped(s[0]) + Encoded(s[1..]) }

  /** Nothing in it is escaped. */
  predicate Verbatim(s: string) { forall c :: c in s ==> IsVerbatim(c) }

  lemma {:induction false} EncodedConcat(a: string, b: string)
    ensures Encoded(a + b) == Encoded(a) + Encoded(b)
  {
    hide Encoded, Escaped;
    EncodedFirst(a);
    if a == "" {
      assert a + b == b;
    } else {
      EncodedConcat(a[1..], b);
      EncodedFirst(a + b);
      assert (a + b)[1..] == a[1..] + b;
      Associative(Escaped(a[0]), Encoded(a[1..]), Encoded(b));
    }
  }

  lemma Associative(a: string, b: string, c: string)
    ensures a + (b + c) == (a + b) + c
  {
  }

  lemma EncodedFirst(s: string)
    ensures s != "" ==> Encoded(s) == Escaped(s[0]) + Encoded(s[1..])
    ensures s == "" ==> Encoded(s) == ""
  {
    hide Escaped;
  }

  predicate IsVerbatim(c: char) { c >= ' ' && c != '"' && c != '\\' && !Special(c) }

  lemma VerbatimCharacter(c: char)
    requires IsVerbatim(c)
    ensures Escaped(c) == [c]
  {
  }

  lemma {:induction false} VerbatimEncodes(s: string)
    requires Verbatim(s)
    ensures Encoded(s) == s
  {
    hide Encoded, Escaped, IsVerbatim;
    EncodedFirst(s);
    if s != "" {
      assert s[0] in s && forall c :: c in s[1..] ==> c in s;
      VerbatimEncodes(s[1..]);
      VerbatimCharacter(s[0]);
    }
  }

  lemma VerbatimJoin(a: string, b: string)
    ensures Verbatim(a + b) <==> Verbatim(a) && Verbatim(b)
  {
    hide IsVerbatim;
    assert forall c :: c in a || c in b ==> c in a + b;
  }

  const QUOTE := "\""

  /** The text of a document with its name and its namespace, both quoted. */
  function Text(before: string, name: string, middle: string, namespace: string, after: string): string {
    (before + QUOTE) + name + (QUOTE + middle + QUOTE + namespace + QUOTE + after)
  }

  /** A document as it is stored, with its name and its namespace encoded. */
  function Document(before: string, name: string, middle: string, namespace: string, after: string): string {
    Text(before, Encoded(name), middle, Encoded(namespace), after)
  }

  function NamePlace(before: string): nat { |before| + 1 }

  function NamespacePlace(before: string, name: string, middle: string): nat {
    |before| + 1 + |name| + 1 + |middle| + 1
  }

  predicate Quotable(s: string) { s != "" && '"' !in s }

  lemma TextAroundNamespace(before: string, name: string, middle: string, namespace: string, after: string)
    ensures Text(before, name, middle, namespace, after)
         == (before + QUOTE + name + QUOTE + middle + QUOTE) + namespace + (QUOTE + after)
    ensures |before + QUOTE + name + QUOTE + middle + QUOTE| == NamespacePlace(before, name, middle)
  {
  }

  /** Replacing the name by one of equal length creates no new occurrence of the namespace, which has a slash. */
  lemma NamespaceStaysAlone(before: string, name: string, name': string, middle: string, namespace: string,
                            after: string)
    requires Quotable(name) && Quotable(name') && Quotable(namespace) && |name| == |name'|
    requires '/' in namespace && '/' !in name'
    requires OccursOnlyAt(Text(before, name, middle, namespace, after), namespace, NamespacePlace(before, name, middle))
    ensures OccursOnlyAt(Text(before, name', middle, namespace, after), namespace, NamespacePlace(before, name, middle))
  {
    var s, t := Text(before, name, middle, namespace, after), Text(before, name', middle, namespace, after);
    var p, q := NamePlace(before), NamePlace(before) + |name|;
    assert SameOutside(s, t, p, q);
    TextAroundNamespace(before, name', middle, namespace, after);
    var place := NamespacePlace(before, name, middle);
    assert At(t, place, namespace);
    forall j | At(t, j, namespace) ensures j == place {
      assert t[p - 1] == '"' && t[q] == '"' && t[p..q] == name';
      Avoids(t, j, namespace, p - 1, '"');
      Avoids(t, j, namespace, q, '"');
      NotInside(t, j, namespace, p, q, name');
      SameOccurrence(s, t, p, q, j, namespace);
    }
  }

  predicate SameOutside(s: string, t: string, p: nat, q: nat) {
    |s| == |t| && forall i :: 0 <= i < |s| && !(p <= i < q) ==> s[i] == t[i]
  }

  lemma NotInside(t: string, j: int, x: string, p: nat, q: nat, inner: string)
    requires At(t, j, x) && p <= q <= |t| && t[p..q] == inner && '/' in x && '/' !in inner
    ensures !(p <= j && j + |x| <= q)
  {
    var k :| 0 <= k < |x| && x[k] == '/';
    assert t[j + k] == x[k];
    assert forall i :: p <= i < q ==> t[i] == inner[i - p];
  }

  lemma SameOccurrence(s: string, t: string, p: nat, q: nat, j: int, x: string)
    requires SameOutside(s, t, p, q) && At(t, j, x) && (j + |x| <= p || q <= j)
    ensures At(s, j, x)
  {
    assert s[j..j + |x|] == t[j..j + |x|];
  }

  lemma ReplacedName(before: string, name: string, name': string, middle: string, namespace: string, after: string)
    requires name != "" && OccursOnlyAt(Text(before, name, middle, namespace, after), name, NamePlace(before))
    ensures ReplaceAll(Text(before, name, middle, namespace, after), name, name')
        == Text(before, name', middle, namespace, after)
  {
    var text := Text(before, name, middle, namespace, after);
    OneOccurrence(text, name, name', NamePlace(before));
    var rest := QUOTE + middle + QUOTE + namespace + QUOTE + after;
    hide ReplaceAll, OccursOnlyAt;
    assert text == (before + QUOTE) + name + rest;
    assert text[..NamePlace(before)] == before + QUOTE && text[NamePlace(before) + |name|..] == rest;
  }

  lemma ReplacedNamespace(before: string, name: string, middle: string, namespace: string, namespace': string,
                          after: string)
    requires namespace != ""
    requires OccursOnlyAt(Text(before, name, middle, namespace, after), namespace, NamespacePlace(before, name, middle))
    ensures ReplaceAll(Text(before, name, middle, namespace, after), namespace, namespace')
         == Text(before, name, middle, namespace', after)
  {
    var text := Text(before, name, middle, namespace, after);
    OneOccurrence(text, namespace, namespace', NamespacePlace(before, name, middle));
    TextAroundNamespace(before, name, middle, namespace, after);
    TextAroundNamespace(before, name, middle, namespace', after);
    hide ReplaceAll, OccursOnlyAt, Text;
    var start := before + QUOTE + name + QUOTE + middle + QUOTE;
    assert text[..|start|] == start && text[|start| + |namespace|..] == QUOTE + after;
  }

  // ---------------------------------------------------------------- what is served

  /** The characters of a namespace that parses: none of them is a control character. A quote or a backslash in a query
  is left out. */
  predicate Printable(s: string) { forall c :: c in s ==> c >= ' ' && c != '"' && c != '\\' }

  /** A document of the cached identity as it was written: no character that the encoder escapes is in it, and it has
  its name and its namespace in their places only. */
  ghost predicate Written(url: Url, hash: string, version: string, arch: string, before: string, middle: string,
                          after: string) {
    var name, namespace := DocumentName(hash, version, arch), Namespace(url, hash, version, arch);
    var text := Document(before, name, middle, namespace, after);
    && (forall c :: c in text ==> !Special(c))
    && OccursOnlyAt(text, Encoded(name), NamePlace(before))
    && OccursOnlyAt(text, Encoded(namespace), NamespacePlace(before, Encoded(name), middle))
  }

  /** What is served is what building the document under the requested identity would have given exactly when the
  namespace has no character that is escaped; otherwise the namespace that is served is still the cached one. */
  lemma ServedIsBuiltDirectlyIff(url: Url, hash: string, id: string, version: string, arch: string,
                                 before: string, middle: string, after: string)
    requires |hash| == |id| && hash != id && Verbatim(hash + id + version + arch)
    requires '/' !in hash && '/' !in id && '/' !in version && '/' !in arch
    requires Printable(Namespace(url, hash, version, arch)) && Written(url, hash, version, arch, before, middle, after)
    ensures var name, name' := DocumentName(hash, version, arch), DocumentName(id, version, arch);
      var ns, ns' := Namespace(url, hash, version, arch), Namespace(url, id, version, arch);
      var served := Serve(Document(before, name, middle, ns, after),
                          [NameReplacement(hash, id, version, arch),
                           NamespaceReplacement(url, hash, id, version, arch)]);
      && (served == Document(before, name', middle, ns', after) <==> Verbatim(ns))
      && (!Verbatim(ns) ==> served == Document(before, name', middle, ns, after))
  {
    VerbatimNames(hash, id, version, arch);
    SlashPlaces(url, hash, version, arch);
    var name, name' := DocumentName(hash, version, arch), DocumentName(id, version, arch);
    var ns, ns' := Namespace(url, hash, version, arch), Namespace(url, id, version, arch);
    if Verbatim(ns) {
      VerbatimNamespaces(url, hash, id, version, arch);
      hide DocumentName, Namespace, Text, ReplaceAll, OccursOnlyAt, Serve, Encoded;
      assert ns[|url.before|] in ns;
      ServedText(before, middle, after, name, name', ns, ns');
    } else {
      hide DocumentName, Namespace, Text, ReplaceAll, OccursOnlyAt, Serve, Encoded;
      ServedOnlyName(before, middle, after, name, name', ns, ns', Encoded(ns));
      DifferentDocuments(url, hash, id, version, arch, before, name', middle, after);
    }
  }

  lemma VerbatimNames(hash: string, id: string, version: string, arch: string)
    requires |hash| == |id| && Verbatim(hash + id + version + arch)
    requires '/' !in hash && '/' !in id && '/' !in version && '/' !in arch
    ensures Verbatim(hash) && Verbatim(id) && Verbatim(version) && Verbatim(arch)
    ensures var name, name' := DocumentName(hash, version, arch), DocumentName(id, version, arch);
      && name != "" && |name| == |name'| && Encoded(name) == name && Encoded(name') == name'
      && Verbatim(name) && Verbatim(name') && '/' !in name'
  {
    hide Verbatim, Encoded;
    VerbatimJoin(hash + id + version, arch);
    VerbatimJoin(hash + id, version);
    VerbatimJoin(hash, id);
    VerbatimName(hash, version, arch);
    VerbatimName(id, version, arch);
    VerbatimEncodes(DocumentName(hash, version, arch));
    VerbatimEncodes(DocumentName(id, version, arch));
  }

  lemma VerbatimName(id: string, version: string, arch: string)
    requires Verbatim(id) && Verbatim(version) && Verbatim(arch)
    ensures Verbatim(DocumentName(id, version, arch))
  {
    var dash, prefix := "-", "talos-";
    assert Verbatim(dash) && Verbatim(prefix);
    hide Verbatim;
    VerbatimJoin(prefix, id);
    VerbatimJoin(prefix + id, dash);
    VerbatimJoin(prefix + id + dash, version);
    VerbatimJoin(prefix + id + dash + version, dash);
    VerbatimJoin(prefix + id + dash + version + dash, arch);
  }

  lemma VerbatimNamespaces(url: Url, hash: string, id: string, version: string, arch: string)
    requires |hash| == |id| && Verbatim(hash + id + version + arch) && Verbatim(Namespace(url, hash, version, arch))
    ensures var ns, ns' := Namespace(url, hash, version, arch), Namespace(url, id, version, arch);
      |ns| == |ns'| && Encoded(ns) == ns && Encoded(ns') == ns'
  {
    var ns, ns' := Namespace(url, hash, version, arch), Namespace(url, id, version, arch);
    forall c | c in ns' ensures c in ns || c in id {}
    assert forall c :: c in id ==> c in hash + id + version + arch;
    VerbatimEncodes(ns);
    VerbatimEncodes(ns');
  }

  /** A namespace that is written as it is, is substituted. */
  lemma ServedText(before: string, middle: string, after: string, name: string, name': string, ns: string, ns': string)
    requires name != "" && |name| == |name'| && Verbatim(name) && Verbatim(name') && '/' !in name'
    requires |ns| == |ns'| && Verbatim(ns) && '/' in ns
    requires OccursOnlyAt(Text(before, name, middle, ns, after), name, NamePlace(before))
    requires OccursOnlyAt(Text(before, name, middle, ns, after), ns, NamespacePlace(before, name, middle))
    ensures Serve(Text(before, name, middle, ns, after), [Replacement(name, name'), Replacement(ns, ns')])
         == Text(before, name', middle, ns', after)
  {
    hide Text, ReplaceAll, OccursOnlyAt, Serve;
    ReplacedName(before, name, name', middle, ns, after);
    NamespaceStaysAlone(before, name, name', middle, ns, after);
    ReplacedNamespace(before, name', middle, ns, ns', after);
    ServeTwo(Text(before, name, middle, ns, after), Replacement(name, name'), Replacement(ns, ns'));
  }

  /** One with a character that is escaped is not there to be substituted. */
  lemma ServedOnlyName(before: string, middle: string, after: string, name: string, name': string, ns: string,
                       ns': string,
                       written: string)
    requires name != "" && |name| == |name'| && Verbatim(name) && Verbatim(name')
    requires ns != "" && Printable(ns) && !Verbatim(ns)
    requires var text := Text(before, name, middle, written, after);
      OccursOnlyAt(text, name, NamePlace(before)) && forall c :: c in text ==> !Special(c)
    ensures Serve(Text(before, name, middle, written, after), [Replacement(name, name'), Replacement(ns, ns')])
         == Text(before, name', middle, written, after)
  {
    var text, m := Text(before, name, middle, written, after), Text(before, name', middle, written, after);
    ReplacedName(before, name, name', middle, written, after);
    ServeTwo(text, Replacement(name, name'), Replacement(ns, ns'));
    forall c | c in m ensures c in text || c in name' {}
    var q :| 0 <= q < |ns| && Special(ns[q]);
    hide Text, ReplaceAll, OccursOnlyAt, Serve;
    forall j ensures !At(m, j, ns) {
      CharacterAt(m, j, ns, q);
    }
    NoOccurrence(m, ns, ns');
  }

  /** Namespaces of different ids are different however they are written. */
  lemma DifferentDocuments(url: Url, hash: string, id: string, version: string, arch: string,
                           before: string, name: string, middle: string, after: string)
    requires |hash| == |id| && hash != id && Verbatim(hash + id + version + arch)
    ensures Document(before, name, middle, Namespace(url, hash, version, arch), after)
         != Document(before, name, middle, Namespace(url, id, version, arch), after)
  {
    var head, tail := url.before + "/spdx/", "/" + version + "/" + arch + url.after;
    EncodedNamespace(url, hash, version, arch, head, tail);
    EncodedNamespace(url, id, version, arch, head, tail);
    hide Encoded, Namespace, Verbatim, Document;
    VerbatimJoin(hash + id + version, arch);
    VerbatimJoin(hash + id, version);
    VerbatimJoin(hash, id);
    VerbatimEncodes(hash);
    VerbatimEncodes(id);
    DifferentTexts(before, name, middle, after, Namespace(url, hash, version, arch), Namespace(url, id, version, arch),
                   head, hash, id, tail);
  }

  lemma DifferentTexts(before: string, name: string, middle: string, after: string, ns: string, ns': string,
                       head: string, hash: string, id: string, tail: string)
    requires |hash| == |id| && hash != id
    requires Encoded(ns) == Encoded(head) + hash + Encoded(tail) && Encoded(ns') == Encoded(head) + id + Encoded(tail)
    ensures Document(before, name, middle, ns, after) != Document(before, name, middle, ns', after)
  {
    hide Encoded, Document;
    TextFromId(before, name, middle, after, ns, head, hash, tail);
    TextFromId(before, name, middle, after, ns', head, id, tail);
  }

  lemma EncodedNamespace(url: Url, id: string, version: string, arch: string, head: string, tail: string)
    requires head == url.before + "/spdx/" && tail == "/" + version + "/" + arch + url.after
    ensures Encoded(Namespace(url, id, version, arch)) == Encoded(head) + Encoded(id) + Encoded(tail)
  {
    assert Namespace(url, id, version, arch) == (head + id) + tail;
    EncodedConcat(head + id, tail);
    EncodedConcat(head, id);
  }

  lemma TextFromId(before: string, name: string, middle: string, after: string, ns: string, head: string, id: string,
                   tail: string)
    requires Encoded(ns) == Encoded(head) + id + Encoded(tail)
    ensures var text := Document(before, name, middle, ns, after);
      var n := |before + QUOTE + Encoded(name) + QUOTE + middle + QUOTE + Encoded(head)|;
      n + |id| <= |text| && text[n..n + |id|] == id
  {
    var start, written := before + QUOTE + Encoded(name) + QUOTE + middle + QUOTE, Encoded(ns);
    TextAroundNamespace(before, Encoded(name), middle, written, after);
    Regroup(start, Encoded(head), id, Encoded(tail), QUOTE + after);
  }

  lemma Regroup(a: string, b: string, x: string, c: string, d: string)
    ensures (a + (b + x + c) + d)[|a + b|..|a + b| + |x|] == x
  {
    assert a + (b + x + c) + d == (a + b) + x + (c + d);
  }

  // ---------------------------------------------------------------- a namespace that stays

  const AMPERSAND := Url("https", "h", "https://h", "?a=1&b=2")

  /** What its query is in a document. */
  const WRITTEN := "?a=1" + "\\u0026" + "b=2"

  /** Under an external URL with an ampersand, a document of nothing but its name and its namespace is served with the
  cached namespace, for any two ids. */
  lemma AmpersandExample(hash: string, id: string, version: string, arch: string)
    requires IsDigest(hash) && IsDigest(id) && hash != id && IsArch(arch) && Verbatim(version) && '/' !in version
    ensures var name, name' := DocumentName(hash, version, arch), DocumentName(id, version, arch);
      var ns, ns' := Namespace(AMPERSAND, hash, version, arch), Namespace(AMPERSAND, id, version, arch);
      var served := Serve(Document("", name, "", ns, ""),
                          [NameReplacement(hash, id, version, arch),
                           NamespaceReplacement(AMPERSAND, hash, id, version, arch)]);
      served == Document("", name', "", ns, "") != Document("", name', "", ns', "")
  {
    DigestsAreVerbatim(hash, id, version, arch);
    AmpersandIsSpecial(hash, version, arch);
    AmpersandIsWritten(hash, version, arch);
    hide DocumentName, Namespace, Document, Serve, Written, Verbatim, IsDigest, Printable;
    ServedIsBuiltDirectlyIff(AMPERSAND, hash, id, version, arch, "", "", "");
  }

  lemma DigestsAreVerbatim(hash: string, id: string, version: string, arch: string)
    requires IsDigest(hash) && IsDigest(id) && IsArch(arch) && Verbatim(version)
    ensures Verbatim(hash + id + version + arch) && '/' !in hash && '/' !in id && '/' !in arch
  {
    assert Verbatim(hash) && Verbatim(id) && Verbatim(arch);
    assert forall c :: c in hash + id + version + arch ==> c in hash || c in id || c in version || c in arch;
  }

  /** A namespace up to its query. */
  function Front(hash: string, version: string, arch: string): string {
    AMPERSAND.before + "/spdx/" + hash + "/" + version + "/" + arch
  }

  lemma NamespaceOfFront(hash: string, version: string, arch: string, after: string)
    ensures Namespace(AMPERSAND.(after := after), hash, version, arch) == Front(hash, version, arch) + after
    ensures Namespace(AMPERSAND, hash, version, arch) == Front(hash, version, arch) + AMPERSAND.after
  {
  }

  lemma FrontIsVerbatim(hash: string, version: string, arch: string)
    requires IsDigest(hash) && IsArch(arch) && Verbatim(version)
    ensures Verbatim(Front(hash, version, arch))
  {
    var host, spdx, slash := "https://h", "/spdx/", "/";
    assert Verbatim(host) && Verbatim(spdx) && Verbatim(slash) && Verbatim(hash) && Verbatim(arch);
    hide Verbatim, IsDigest;
    VerbatimJoin(host, spdx);
    VerbatimJoin(host + spdx, hash);
    VerbatimJoin(host + spdx + hash, slash);
    VerbatimJoin(host + spdx + hash + slash, version);
    VerbatimJoin(host + spdx + hash + slash + version, slash);
    VerbatimJoin(host + spdx + hash + slash + version + slash, arch);
  }

  lemma AmpersandIsSpecial(hash: string, version: string, arch: string)
    requires IsDigest(hash) && IsArch(arch) && Verbatim(version)
    ensures var ns := Namespace(AMPERSAND, hash, version, arch); Printable(ns) && !Verbatim(ns)
  {
    var ns, front, tail := Namespace(AMPERSAND, hash, version, arch), Front(hash, version, arch), AMPERSAND.after;
    FrontIsVerbatim(hash, version, arch);
    NamespaceOfFront(hash, version, arch, tail);
    assert Printable(tail) && tail[4] == '&';
    hide Front, Namespace;
    assert ns[|front| + 4] == '&' && ns[|front| + 4] in ns;
    forall c | c in ns ensures c in front || c in tail {}
  }

  lemma EncodedAmpersand()
    ensures Encoded("&") == "\\u0026"
  {
    var b := "&";
    EncodedFirst(b);
    EncodedFirst(b[1..]);
    hide Encoded;
    assert Escaped('&') == Unicode('&');
    assert HexDigit(0) == '0' && HexDigit(2) == '2' && HexDigit(6) == '6';
    assert '&' as int == 38;
  }

  lemma EncodedQuery()
    ensures Encoded(AMPERSAND.after) == WRITTEN
  {
    var a, b, c := "?a=1", "&", "b=2";
    assert AMPERSAND.after == (a + b) + c;
    assert Verbatim(a) && Verbatim(c);
    hide Encoded, Verbatim;
    EncodedConcat(a + b, c);
    EncodedConcat(a, b);
    VerbatimEncodes(a);
    VerbatimEncodes(c);
    EncodedAmpersand();
  }

  /** The encoded namespace, as if it were one with the written query. */
  lemma EncodedIsNamespace(hash: string, version: string, arch: string)
    requires IsDigest(hash) && IsArch(arch) && Verbatim(version)
    ensures Encoded(Namespace(AMPERSAND, hash, version, arch))
         == Namespace(AMPERSAND.(after := WRITTEN), hash, version, arch)
  {
    hide Namespace, Encoded, Verbatim, Front;
    FrontIsVerbatim(hash, version, arch);
    NamespaceOfFront(hash, version, arch, WRITTEN);
    EncodedQuery();
    EncodedConcat(Front(hash, version, arch), AMPERSAND.after);
    VerbatimEncodes(Front(hash, version, arch));
  }

  lemma AmpersandIsWritten(hash: string, version: string, arch: string)
    requires IsDigest(hash) && IsArch(arch) && Verbatim(version) && '/' !in version
    ensures Written(AMPERSAND, hash, version, arch, "", "", "")
  {
    var name, x := DocumentName(hash, version, arch), Namespace(AMPERSAND.(after := WRITTEN), hash, version, arch);
    DigestsAreVerbatim(hash, hash, version, arch);
    VerbatimNames(hash, hash, version, arch);
    EncodedIsNamespace(hash, version, arch);
    WrittenCharacters(hash, version, arch);
    forall j ensures !At(x, j, name) { NotInWritten(hash, version, arch, j); }
    hide DocumentName, Namespace, Encoded, At, OccursOnlyAt, IsDigest, IsArch, Special, Text;
    BareText(name, x);
    BareCharacters(name, x);
  }

  lemma QuoteIsPlain()
    ensures !Special('"')
  {
  }

  lemma BareCharacters(name: string, x: string)
    requires Verbatim(name) && forall c :: c in x ==> !Special(c)
    ensures forall c :: c in Text("", name, "", x, "") ==> !Special(c)
  {
    hide Special;
    QuoteIsPlain();
    forall c | c in Text("", name, "", x, "") ensures c == '"' || c in name || c in x {}
  }

  lemma WrittenCharacters(hash: string, version: string, arch: string)
    requires IsDigest(hash) && IsArch(arch) && Verbatim(version)
    ensures var x := Namespace(AMPERSAND.(after := WRITTEN), hash, version, arch);
      '"' !in x && '/' in x && forall c :: c in x ==> !Special(c)
  {
    SlashPlaces(AMPERSAND.(after := WRITTEN), hash, version, arch);
    var x, front := Namespace(AMPERSAND.(after := WRITTEN), hash, version, arch), Front(hash, version, arch);
    FrontIsVerbatim(hash, version, arch);
    NamespaceOfFront(hash, version, arch, WRITTEN);
    assert '"' !in WRITTEN && forall c :: c in WRITTEN ==> !Special(c);
    hide Front, Namespace;
    assert x[9] in x;
    forall c | c in x ensures c in front || c in WRITTEN {}
  }

  lemma NotInWritten(hash: string, version: string, arch: string, j: int)
    requires IsDigest(hash) && IsArch(arch) && '/' !in version
    ensures !At(Namespace(AMPERSAND.(after := WRITTEN), hash, version, arch), j, DocumentName(hash, version, arch))
  {
    var url := AMPERSAND.(after := WRITTEN);
    assert '/' !in hash;
    NameEnds(hash, version, arch);
    NameParts(hash, version, arch);
    SlashPlaces(url, hash, version, arch);
    assert |url.before| == 9 && |url.after| == 13;
    hide DocumentName, Namespace;
    if At(Namespace(url, hash, version, arch), j, DocumentName(hash, version, arch)) {
      InsideNamespace(url, hash, hash, version, arch, j);
    }
  }

  /** A document of nothing but a name and a namespace has them in their places only. */
  lemma BareText(name: string, x: string)
    requires name != "" && '"' !in name && '"' !in x && '/' !in name && '/' in x && forall j :: !At(x, j, name)
    ensures var text := Text("", name, "", x, "");
      OccursOnlyAt(text, name, NamePlace("")) && OccursOnlyAt(text, x, NamespacePlace("", name, ""))
  {
    var text, n := Text("", name, "", x, ""), |name|;
    BareParts(name, x);
    hide Text, At;
    forall j | At(text, j, name) ensures j == 1 {
      AvoidsQuotes(text, j, name, n, |x|);
      AtWithin(text, 3 + n, x, j, name);
    }
    forall j | At(text, j, x) ensures j == 3 + n {
      AvoidsQuotes(text, j, x, n, |x|);
      NotInside(text, j, x, 1, 1 + n, name);
    }
  }

  lemma BareParts(name: string, x: string)
    ensures var text, n := Text("", name, "", x, ""), |name|;
      && |text| == n + |x| + 4 && At(text, 1, name) && At(text, 3 + n, x) && text[1..1 + n] == name
      && text[0] == '"' && text[1 + n] == '"' && text[2 + n] == '"' && text[3 + n + |x|] == '"'
      && NamePlace("") == 1 && NamespacePlace("", name, "") == 3 + n
  {
    TextAroundNamespace("", name, "", x, "");
  }

  lemma AvoidsQuotes(text: string, j: int, y: string, n: nat, m: nat)
    requires At(text, j, y) && '"' !in y && y != "" && |text| == n + m + 4
    requires text[0] == '"' && text[1 + n] == '"' && text[2 + n] == '"' && text[3 + n + m] == '"'
    ensures (1 <= j && j + |y| <= 1 + n) || (3 + n <= j && j + |y| <= 3 + n + m)
  {
    Avoids(text, j, y, 0, '"');
    Avoids(text, j, y, 1 + n, '"');
    Avoids(text, j, y, 2 + n, '"');
    Avoids(text, j, y, 3 + n + m, '"');
  }
}
