/** Merging the SPDX documents of a bundle into one (enterprise/spdx/builder/spdx.go).

Documents are taken as parsed from JSON, where identifiers have lost their "SPDXRef-". A package or a file is its
identifier and everything else about it; what else is in a document is copied. */
module SpdxMerge {
  import opened Strings

  type ElementID = string

  /** A reference to an element, of another document if `document` is not empty; or NONE or NOASSERTION. */
  datatype DocElementID = DocElementID(document: string, element: ElementID, special: string)

  datatype Relationship = Relationship(a: DocElementID, b: DocElementID, kind: string, comment: string)
  datatype Element = Element(id: ElementID, rest: string)

  datatype Document = Document(
    id: ElementID, created: string, packages: seq<Element>, files: seq<Element>, relationships: seq<Relationship>,
    licenses: seq<string>, snippets: seq<string>)

  const DOCUMENT: ElementID := "DOCUMENT"
  const DESCRIBES := "DESCRIBES"
  const CONTAINS := "CONTAINS"
  const ROOT_ID: ElementID := "DocumentRoot-Directory-talos"

  function Local(id: ElementID): DocElementID { DocElementID("", id, "") }

  function PrefixElementID(prefix: string, id: ElementID): ElementID { if id == DOCUMENT then id else prefix + id }

  function PrefixDocElementID(prefix: string, id: DocElementID): DocElementID {
    if id.special != "" || id.document != "" then id else Local(PrefixElementID(prefix, id.element))
  }

  function PrefixElement(prefix: string, e: Element): Element { e.(id := PrefixElementID(prefix, e.id)) }

  /** A document's own DESCRIBES hang its roots under the synthetic root instead. */
  function Rewrite(prefix: string, own: ElementID, rel: Relationship): Relationship {
    if rel.a.element == own && rel.kind == DESCRIBES then
      rel.(kind := CONTAINS, a := Local(ROOT_ID), b := PrefixDocElementID(prefix, rel.b))
    else rel.(a := PrefixDocElementID(prefix, rel.a), b := PrefixDocElementID(prefix, rel.b))
  }

  function Map<T, U>(f: T -> U, s: seq<T>): (r: seq<U>)
    ensures |r| == |s| && forall i :: 0 <= i < |s| ==> r[i] == f(s[i])
  {
    seq(|s|, i requires 0 <= i < |s| => f(s[i]))
  }

  /** The merged document before any source: the synthetic root and the one relationship that describes it. */
  function Root(created: string, root: string): Document {
    Document(DOCUMENT, created, [Element(ROOT_ID, root)], [],
             [Relationship(Local(DOCUMENT), Local(ROOT_ID), DESCRIBES, "")], [], [])
  }

  function MergeOne(merged: Document, source: Document, sourceID: string): Document {
    var prefix := sourceID + "-";
    merged.(packages := merged.packages + Map(e => PrefixElement(prefix, e), source.packages),
            files := merged.files + Map(e => PrefixElement(prefix, e), source.files),
            relationships := merged.relationships + Map(rel => Rewrite(prefix, source.id, rel), source.relationships),
            licenses := merged.licenses + source.licenses,
            snippets := merged.snippets + source.snippets)
  }

  datatype Source = Source(name: string, doc: Document)

  function MergeAll(root: Document, sources: seq<Source>): Document {
    if sources == [] then root
    else
      var last := sources[|sources| - 1];
      MergeOne(MergeAll(root, sources[..|sources| - 1]), last.doc, last.name)
  }

  // ---------------------------------------------------------------- the merge as it runs

  class MergedDocument {
    var created: string
    var packages: seq<Element>
    var files: seq<Element>
    var relationships: seq<Relationship>
    var licenses: seq<string>
    var snippets: seq<string>

    constructor (root: string)
      ensures Value() == Root("", root)
    {
      created := "";
      packages, files := [Element(ROOT_ID, root)], [];
      relationships := [Relationship(Local(DOCUMENT), Local(ROOT_ID), DESCRIBES, "")];
      licenses, snippets := [], [];
    }

    function Value(): Document
      reads this
    {
      Document(DOCUMENT, created, packages, files, relationships, licenses, snippets)
    }

    method MergeDocument(source: Document, sourceID: string)
      modifies this
      ensures Value() == MergeOne(old(Value()), source, sourceID)
    {
      var prefix := sourceID + "-";
      for i := 0 to |source.packages|
        invariant packages == old(packages) + Map(e => PrefixElement(prefix, e), source.packages)[..i]
        invariant files == old(files) && relationships == old(relationships) && created == old(created)
        invariant licenses == old(licenses) && snippets == old(snippets)
      {
        packages := packages + [source.packages[i].(id := PrefixElementID(prefix, source.packages[i].id))];
      }
      for i := 0 to |source.files|
        invariant packages == old(packages) + Map(e => PrefixElement(prefix, e), source.packages)
        invariant files == old(files) + Map(e => PrefixElement(prefix, e), source.files)[..i]
        invariant relationships == old(relationships) && created == old(created)
        invariant licenses == old(licenses) && snippets == old(snippets)
      {
        files := files + [source.files[i].(id := PrefixElementID(prefix, source.files[i].id))];
      }
      for i := 0 to |source.relationships|
        invariant packages == old(packages) + Map(e => PrefixElement(prefix, e), source.packages)
        invariant files == old(files) + Map(e => PrefixElement(prefix, e), source.files)
        invariant relationships
            == old(relationships) + Map(rel => Rewrite(prefix, source.id, rel), source.relationships)[..i]
        invariant created == old(created) && licenses == old(licenses) && snippets == old(snippets)
      {
        var rel := source.relationships[i];
        var newRel := Relationship(rel.a, rel.b, rel.kind, rel.comment);
        if rel.a.element == source.id && rel.kind == DESCRIBES {
          newRel := newRel.(kind := CONTAINS, a := Local(ROOT_ID), b := PrefixDocElementID(prefix, rel.b));
        } else {
          newRel := newRel.(a := PrefixDocElementID(prefix, rel.a), b := PrefixDocElementID(prefix, rel.b));
        }
        relationships := relationships + [newRel];
      }
      licenses := licenses + source.licenses;
      snippets := snippets + source.snippets;
    }
  }

  // ---------------------------------------------------------------- one root

  /** The document describes this. */
  predicate IsRoot(rel: Relationship) { rel.a == Local(DOCUMENT) && rel.kind == DESCRIBES }

  function Roots(rels: seq<Relationship>): nat {
    if rels == [] then 0 else Roots(rels[..|rels| - 1]) + if IsRoot(rels[|rels| - 1]) then 1 else 0
  }

  lemma {:induction false} RootsConcat(a: seq<Relationship>, b: seq<Relationship>)
    ensures Roots(a + b) == Roots(a) + Roots(b)
  {
    if b == [] {
      assert a + b == a;
    } else {
      RootsConcat(a, b[..|b| - 1]);
      assert (a + b)[..|a + b| - 1] == a + b[..|b| - 1];
    }
  }

  lemma {:induction false} RootsZero(rels: seq<Relationship>)
    ensures Roots(rels) == 0 <==> forall rel :: rel in rels ==> !IsRoot(rel)
  {
    if rels != [] {
      RootsZero(rels[..|rels| - 1]);
      assert rels == rels[..|rels| - 1] + [rels[|rels| - 1]];
    }
  }

  /** A prefixed identifier contains a dash and DOCUMENT does not. */
  lemma PrefixedIsNotDocument(source: string, id: ElementID)
    ensures PrefixElementID(source + "-", id) == DOCUMENT <==> id == DOCUMENT
  {
    if id != DOCUMENT {
      var p := source + "-" + id;
      assert p[|source|] == '-';
      assert forall i :: 0 <= i < |DOCUMENT| ==> DOCUMENT[i] != '-';
    }
  }

  /** A relationship comes out as a root only if it was one and the document has another identifier than DOCUMENT. */
  lemma RewrittenRoot(source: string, own: ElementID, rel: Relationship)
    ensures IsRoot(Rewrite(source + "-", own, rel)) <==> IsRoot(rel) && own != DOCUMENT
  {
    PrefixedIsNotDocument(source, rel.a.element);
    PrefixedIsNotDocument(source, rel.b.element);
    hide PrefixElementID;
    assert DESCRIBES != CONTAINS by { assert |DESCRIBES| != |CONTAINS|; }
  }

  /** What makes a source bring a root of its own. */
  ghost predicate HasOwnRoot(doc: Document) {
    doc.id != DOCUMENT && exists rel :: rel in doc.relationships && IsRoot(rel)
  }

  lemma SourceRoots(source: Source)
    ensures Roots(Map(rel => Rewrite(source.name + "-", source.doc.id, rel), source.doc.relationships)) == 0
       <==> !HasOwnRoot(source.doc)
  {
    hide IsRoot, Rewrite;
    var rels := source.doc.relationships;
    var news := Map(rel => Rewrite(source.name + "-", source.doc.id, rel), rels);
    RootsZero(news);
    forall i | 0 <= i < |rels| ensures IsRoot(news[i]) <==> IsRoot(rels[i]) && source.doc.id != DOCUMENT {
      RewrittenRoot(source.name, source.doc.id, rels[i]);
    }
    if HasOwnRoot(source.doc) {
      var i :| 0 <= i < |rels| && IsRoot(rels[i]);
      assert news[i] in news;
    }
  }

  /** The merged document describes exactly one root, the synthetic one, if and only if no source has an identifier
  other than DOCUMENT and still relates DOCUMENT to what it describes. */
  lemma {:induction false} OneRoot(created: string, root: string, sources: seq<Source>)
    ensures Roots(MergeAll(Root(created, root), sources).relationships) >= 1
    ensures Roots(MergeAll(Root(created, root), sources).relationships) == 1
       <==> forall source :: source in sources ==> !HasOwnRoot(source.doc)
  {
    if sources == [] {
      var rels := Root(created, root).relationships;
      assert rels[..0] == [] && rels == rels[..0] + [rels[0]];
    } else {
      var rest, last := sources[..|sources| - 1], sources[|sources| - 1];
      OneRoot(created, root, rest);
      SourceRoots(last);
      RootsConcat(MergeAll(Root(created, root), rest).relationships,
                  Map(rel => Rewrite(last.name + "-", last.doc.id, rel), last.doc.relationships));
      assert sources == rest + [last];
    }
  }

  // ---------------------------------------------------------------- conservation

  function Sum(f: Source -> nat, sources: seq<Source>): nat {
    if sources == [] then 0 else Sum(f, sources[..|sources| - 1]) + f(sources[|sources| - 1])
  }

  /** Nothing is lost or added but the synthetic root and its relationship. */
  lemma {:induction false} Conserves(root: Document, sources: seq<Source>)
    ensures var m := MergeAll(root, sources);
      && |m.packages| == |root.packages| + Sum((s: Source) => |s.doc.packages|, sources)
      && |m.files| == |root.files| + Sum((s: Source) => |s.doc.files|, sources)
      && |m.relationships| == |root.relationships| + Sum((s: Source) => |s.doc.relationships|, sources)
      && |m.licenses| == |root.licenses| + Sum((s: Source) => |s.doc.licenses|, sources)
      && |m.snippets| == |root.snippets| + Sum((s: Source) => |s.doc.snippets|, sources)
  {
    if sources != [] {
      Conserves(root, sources[..|sources| - 1]);
    }
  }

  // ---------------------------------------------------------------- what each element becomes

  /** The element with the source's name before its identifier, and all else as it was. */
  predicate IsRenamed(name: string, e: Element, merged: Element) {
    merged.rest == e.rest && merged.id == if e.id == "DOCUMENT" then "DOCUMENT" else name + "-" + e.id
  }

  /** A reference to one of the document's own elements has the source's name before its identifier; any other one, and
  one to the document itself, is as it was. */
  predicate IsPrefixed(name: string, r: DocElementID, merged: DocElementID) {
    if r.special == "" && r.document == "" && r.element != "DOCUMENT" then
        merged == DocElementID("", name + "-" + r.element, "")
    else merged == r
  }

  /** What the document describes is contained in the synthetic root; any other relationship keeps its kind. */
  predicate IsReparented(name: string, own: ElementID, rel: Relationship, merged: Relationship) {
    && merged.comment == rel.comment && IsPrefixed(name, rel.b, merged.b)
    && if rel.a.element == own && rel.kind == "DESCRIBES" then
         merged.kind == "CONTAINS" && merged.a == DocElementID("", "DocumentRoot-Directory-talos", "")
       else merged.kind == rel.kind && IsPrefixed(name, rel.a, merged.a)
  }

  lemma RewriteReparents(name: string, own: ElementID, rel: Relationship)
    ensures IsReparented(name, own, rel, Rewrite(name + "-", own, rel))
  {
  }

  lemma PrefixRenames(name: string, e: Element)
    ensures IsRenamed(name, e, PrefixElement(name + "-", e))
  {
  }

  /** The merged document from these places on is the source. */
  predicate IsMergedAt(m: Document, source: Source, packages: nat, files: nat, relationships: nat, licenses: nat,
                       snippets: nat) {
    var doc := source.doc;
    && packages + |doc.packages| <= |m.packages| && files + |doc.files| <= |m.files|
    && relationships + |doc.relationships| <= |m.relationships|
    && licenses + |doc.licenses| <= |m.licenses| && snippets + |doc.snippets| <= |m.snippets|
    && (forall i :: 0 <= i < |doc.packages| ==> IsRenamed(source.name, doc.packages[i], m.packages[packages + i]))
    && (forall i :: 0 <= i < |doc.files| ==> IsRenamed(source.name, doc.files[i], m.files[files + i]))
    && (forall i :: 0 <= i < |doc.relationships| ==>
          IsReparented(source.name, doc.id, doc.relationships[i], m.relationships[relationships + i]))
    && m.licenses[licenses..licenses + |doc.licenses|] == doc.licenses
    && m.snippets[snippets..snippets + |doc.snippets|] == doc.snippets
  }

  lemma MergedAtEnd(merged: Document, source: Source)
    ensures IsMergedAt(MergeOne(merged, source.doc, source.name), source, |merged.packages|, |merged.files|,
                       |merged.relationships|, |merged.licenses|, |merged.snippets|)
  {
    hide IsRenamed, IsReparented, Rewrite, PrefixElement;
    var m := MergeOne(merged, source.doc, source.name);
    forall i | 0 <= i < |source.doc.packages|
      ensures IsRenamed(source.name, source.doc.packages[i], m.packages[|merged.packages| + i])
    {
      PrefixRenames(source.name, source.doc.packages[i]);
    }
    forall i | 0 <= i < |source.doc.files|
      ensures IsRenamed(source.name, source.doc.files[i], m.files[|merged.files| + i])
    {
      PrefixRenames(source.name, source.doc.files[i]);
    }
    forall i | 0 <= i < |source.doc.relationships|
      ensures IsReparented(source.name, source.doc.id, source.doc.relationships[i],
                           m.relationships[|merged.relationships| + i])
    {
      RewriteReparents(source.name, source.doc.id, source.doc.relationships[i]);
    }
  }

  lemma MergedStays(merged: Document, doc: Document, name: string, source: Source, packages: nat, files: nat,
                    relationships: nat, licenses: nat, snippets: nat)
    requires IsMergedAt(merged, source, packages, files, relationships, licenses, snippets)
    ensures IsMergedAt(MergeOne(merged, doc, name), source, packages, files, relationships, licenses, snippets)
  {
    hide IsRenamed, IsReparented, Rewrite, PrefixElement;
  }

  /** Behind the synthetic root and the relationship that describes it, the merged document is its sources in order:
  every package and file renamed, every relationship kept, and what a source describes contained in the root. */
  lemma {:induction false} MergedInOrder(created: string, root: string, sources: seq<Source>, k: nat)
    requires k < |sources|
    ensures var m := MergeAll(Root(created, root), sources);
      && m.packages != [] && m.packages[0] == Element("DocumentRoot-Directory-talos", root)
      && m.relationships != []
      && m.relationships[0] == Relationship(DocElementID("", "DOCUMENT", ""),
                                            DocElementID("", "DocumentRoot-Directory-talos", ""), "DESCRIBES", "")
    ensures var before := sources[..k];
      IsMergedAt(MergeAll(Root(created, root), sources), sources[k],
                 1 + Sum((s: Source) => |s.doc.packages|, before), Sum((s: Source) => |s.doc.files|, before),
                 1 + Sum((s: Source) => |s.doc.relationships|, before), Sum((s: Source) => |s.doc.licenses|, before),
                 Sum((s: Source) => |s.doc.snippets|, before))
  {
    hide IsMergedAt, MergeOne;
    var rest, last := sources[..|sources| - 1], sources[|sources| - 1];
    var merged := MergeAll(Root(created, root), rest);
    RootIsFirst(created, root, sources);
    if k < |rest| {
      MergedInOrder(created, root, rest, k);
      assert rest[..k] == sources[..k];
      MergedStays(merged, last.doc, last.name, rest[k], 1 + Sum((s: Source) => |s.doc.packages|, rest[..k]),
                  Sum((s: Source) => |s.doc.files|, rest[..k]),
                      1 + Sum((s: Source) => |s.doc.relationships|, rest[..k]),
                  Sum((s: Source) => |s.doc.licenses|, rest[..k]), Sum((s: Source) => |s.doc.snippets|, rest[..k]));
    } else {
      Conserves(Root(created, root), rest);
      MergedAtEnd(merged, last);
    }
  }

  lemma {:induction false} RootIsFirst(created: string, root: string, sources: seq<Source>)
    ensures var m := MergeAll(Root(created, root), sources);
      && m.packages != [] && m.packages[0] == Element("DocumentRoot-Directory-talos", root)
      && m.relationships != []
      && m.relationships[0] == Relationship(DocElementID("", "DOCUMENT", ""),
                                            DocElementID("", "DocumentRoot-Directory-talos", ""), "DESCRIBES", "")
  {
    if sources != [] {
      RootIsFirst(created, root, sources[..|sources| - 1]);
    }
  }

  // ---------------------------------------------------------------- endpoints

  ghost predicate HasElement(doc: Document, id: ElementID) {
    (exists e :: e in doc.packages && e.id == id) || (exists e :: e in doc.files && e.id == id)
  }

  /** The reference is to this document, or to a package or a file in it. */
  ghost predicate Resolves(doc: Document, r: DocElementID) {
    r.document == "" && r.special == "" && (r.element == DOCUMENT || HasElement(doc, r.element))
  }

  lemma OneKeeps(merged: Document, source: Document, name: string, r: DocElementID)
    ensures Resolves(merged, r) ==> Resolves(MergeOne(merged, source, name), r)
    ensures Resolves(source, r) ==> Resolves(MergeOne(merged, source, name), PrefixDocElementID(name + "-", r))
    ensures r.document == "" && r.special == "" && r.element == ROOT_ID && HasElement(merged, ROOT_ID) ==>
      Resolves(MergeOne(merged, source, name), r)
  {
    var m := MergeOne(merged, source, name);
    var prefix := name + "-";
    if HasElement(merged, r.element) {
      if e :| e in merged.packages && e.id == r.element {
        assert e in m.packages;
      } else {
        var e :| e in merged.files && e.id == r.element;
        assert e in m.files;
      }
    }
    if HasElement(source, r.element) {
      if i :| 0 <= i < |source.packages| && source.packages[i].id == r.element {
        assert m.packages[|merged.packages| + i] == PrefixElement(prefix, source.packages[i]);
        assert PrefixElement(prefix, source.packages[i]) in m.packages;
      } else {
        var e :| e in source.files && e.id == r.element;
        var i :| 0 <= i < |source.files| && source.files[i] == e;
        assert m.files[|merged.files| + i] == PrefixElement(prefix, source.files[i]);
        assert PrefixElement(prefix, source.files[i]) in m.files;
      }
    }
  }

  /** Every relationship of every source is in the merged document, rewritten, and its ends lead somewhere if they did
  before; an end at DOCUMENT that described a root now is the synthetic root, which is there. */
  lemma {:induction false} EndpointsResolve(created: string, root: string, sources: seq<Source>, k: nat,
                                            rel: Relationship)
    requires k < |sources| && rel in sources[k].doc.relationships
    ensures var m := MergeAll(Root(created, root), sources);
      var rewritten := Rewrite(sources[k].name + "-", sources[k].doc.id, rel);
      && rewritten in m.relationships
      && (Resolves(sources[k].doc, rel.a) ==> Resolves(m, rewritten.a))
      && (Resolves(sources[k].doc, rel.b) ==> Resolves(m, rewritten.b))
  {
    hide Resolves, HasElement, PrefixDocElementID;
    var rest, last := sources[..|sources| - 1], sources[|sources| - 1];
    var merged := MergeAll(Root(created, root), rest);
    var rewritten := Rewrite(sources[k].name + "-", sources[k].doc.id, rel);
    if k < |rest| {
      EndpointsResolve(created, root, rest, k, rel);
      OneKeeps(merged, last.doc, last.name, rewritten.a);
      OneKeeps(merged, last.doc, last.name, rewritten.b);
    } else {
      OneKeeps(merged, last.doc, last.name, rel.a);
      OneKeeps(merged, last.doc, last.name, rel.b);
      RootStays(created, root, rest);
      OneKeeps(merged, last.doc, last.name, Local(ROOT_ID));
      RewrittenIsMerged(merged, last, rel);
    }
  }

  lemma RewrittenIsMerged(merged: Document, source: Source, rel: Relationship)
    requires rel in source.doc.relationships
    ensures Rewrite(source.name + "-", source.doc.id, rel) in MergeOne(merged, source.doc, source.name).relationships
  {
    hide Rewrite;
    var i :| 0 <= i < |source.doc.relationships| && source.doc.relationships[i] == rel;
    assert MergeOne(merged, source.doc, source.name).relationships[|merged.relationships| + i]
        == Rewrite(source.name + "-", source.doc.id, rel);
  }

  lemma {:induction false} RootStays(created: string, root: string, sources: seq<Source>)
    ensures HasElement(MergeAll(Root(created, root), sources), ROOT_ID)
    ensures var packages := MergeAll(Root(created, root), sources).packages;
        packages != [] && packages[0] == Element(ROOT_ID, root)
  {
    if sources != [] {
      RootStays(created, root, sources[..|sources| - 1]);
    }
    assert MergeAll(Root(created, root), sources).packages[0] in MergeAll(Root(created, root), sources).packages;
  }

  // ---------------------------------------------------------------- unique identifiers

  /** Packages and files of a document, in one list. */
  function IDs(doc: Document): seq<ElementID> {
    Map((e: Element) => e.id, doc.packages) + Map((e: Element) => e.id, doc.files)
  }

  ghost predicate Distinct<T(!new)>(s: seq<T>) { forall i, j :: 0 <= i < j < |s| ==> s[i] != s[j] }

  /** Neither name followed by a dash begins the other one followed by a dash. */
  predicate PrefixFree(a: string, b: string) { !(a + "-" <= b + "-") && !(b + "-" <= a + "-") }

  /** Two sources keep their elements apart, whatever they are called, exactly when their names are prefix-free. */
  lemma SeparateIff(a: string, b: string)
    ensures PrefixFree(a, b) <==> forall x, y :: x != DOCUMENT && y != DOCUMENT ==>
      PrefixElementID(a + "-", x) != PrefixElementID(b + "-", y)
  {
    if a + "-" <= b + "-" {
      var y := "Package";
      var x := (b + "-")[|a + "-"|..] + y;
      LongEnough(x, y);
      assert (a + "-") + x == (b + "-") + y;
      assert PrefixElementID(a + "-", x) == PrefixElementID(b + "-", y);
    } else if b + "-" <= a + "-" {
      var x := "Package";
      var y := (a + "-")[|b + "-"|..] + x;
      LongEnough(y, x);
      assert (a + "-") + x == (b + "-") + y;
      assert PrefixElementID(a + "-", x) == PrefixElementID(b + "-", y);
    }
    forall x, y | x != DOCUMENT && y != DOCUMENT && PrefixElementID(a + "-", x) == PrefixElementID(b + "-", y)
      ensures !PrefixFree(a, b)
    {
      CommonPrefix(a + "-", x, b + "-", y);
    }
  }

  lemma LongEnough(x: string, y: string)
    requires y == "Package" && |x| >= |y| && x[|x| - |y|..] == y
    ensures x != DOCUMENT && y != DOCUMENT
  {
    assert x[|x| - 1] == y[|y| - 1] == 'e';
    assert DOCUMENT[|DOCUMENT| - 1] == 'T';
  }

  lemma CommonPrefix(a: string, x: string, b: string, y: string)
    requires a + x == b + y
    ensures a <= b || b <= a
  {
    if |a| <= |b| {
      assert a == (a + x)[..|a|] == (b + y)[..|a|] == b[..|a|];
    } else {
      assert b == (b + y)[..|b|] == (a + x)[..|b|] == a[..|b|];
    }
  }

  /** No source can produce the synthetic root's identifier. */
  predicate ClearOfRoot(name: string) { !(name + "-" <= ROOT_ID) }

  ghost predicate WellFormedSource(doc: Document) { Distinct(IDs(doc)) && DOCUMENT !in IDs(doc) }

  /** What the merge adds to the identifiers, up to order. */
  lemma IDsOfMerge(merged: Document, source: Document, name: string)
    ensures multiset(IDs(MergeOne(merged, source, name)))
         == multiset(IDs(merged)) + multiset(Map((id: ElementID) => PrefixElementID(name + "-", id), IDs(source)))
  {
    hide PrefixElementID;
    var prefix := name + "-";
    var m := MergeOne(merged, source, name);
    var ids := (e: Element) => e.id;
    var pre := (id: ElementID) => PrefixElementID(prefix, id);
    assert Map(ids, m.packages) == Map(ids, merged.packages) + Map(pre, Map(ids, source.packages));
    assert Map(ids, m.files) == Map(ids, merged.files) + Map(pre, Map(ids, source.files));
    assert Map(pre, IDs(source)) == Map(pre, Map(ids, source.packages)) + Map(pre, Map(ids, source.files));
  }

  lemma DistinctCounts<T(!new)>(s: seq<T>)
    ensures Distinct(s) <==> forall x :: multiset(s)[x] <= 1
  {
    if Distinct(s) {
      forall x ensures multiset(s)[x] <= 1 { CountDistinct(s, x); }
    }
    forall i, j | 0 <= i < j < |s| && s[i] == s[j] ensures multiset(s)[s[i]] >= 2 {
      assert s == s[..i] + [s[i]] + s[i + 1..];
      assert s[i + 1..][j - i - 1] == s[j];
      assert s[j] in multiset(s[i + 1..]);
    }
  }

  lemma {:induction false} CountDistinct<T(!new)>(s: seq<T>, x: T)
    requires Distinct(s)
    ensures multiset(s)[x] <= 1
  {
    if s != [] {
      assert s == [s[0]] + s[1..];
      CountDistinct(s[1..], x);
      if x == s[0] {
        assert x !in s[1..];
        assert x !in multiset(s[1..]);
      }
    }
  }

  /** Where an identifier of the merged document comes from. */
  ghost predicate FromSource(sources: seq<Source>, id: ElementID) {
    exists k, x :: 0 <= k < |sources| && x in IDs(sources[k].doc) && id == PrefixElementID(sources[k].name + "-", x)
  }

  lemma {:induction false} Origin(created: string, root: string, sources: seq<Source>, id: ElementID)
    requires id in IDs(MergeAll(Root(created, root), sources)) && id != ROOT_ID
    ensures FromSource(sources, id)
  {
    hide PrefixElementID;
    if sources == [] {
      OnlyRoot(created, root);
    } else {
      var rest, last := sources[..|sources| - 1], sources[|sources| - 1];
      var merged := MergeAll(Root(created, root), rest);
      IDsOfMerge(merged, last.doc, last.name);
      assert id in multiset(IDs(MergeOne(merged, last.doc, last.name)));
      if id in IDs(merged) {
        Origin(created, root, rest, id);
        var k, x :| 0 <= k < |rest| && x in IDs(rest[k].doc) && id == PrefixElementID(rest[k].name + "-", x);
        assert sources[k] == rest[k];
      } else {
        var mapped := Map((id: ElementID) => PrefixElementID(last.name + "-", id), IDs(last.doc));
        assert id in multiset(mapped);
        var i :| 0 <= i < |mapped| && mapped[i] == id;
        assert IDs(last.doc)[i] in IDs(last.doc);
        assert sources[|sources| - 1] == last;
      }
    }
  }

  /** Identifiers stay unique: if every source's own are, no element is called DOCUMENT, the sources' names are
  prefix-free and none of them begins the synthetic root's identifier. */
  lemma {:induction false} UniqueIDs(created: string, root: string, sources: seq<Source>)
    requires forall source :: source in sources ==> WellFormedSource(source.doc) && ClearOfRoot(source.name)
    requires forall i, j :: 0 <= i < j < |sources| ==> PrefixFree(sources[i].name, sources[j].name)
    ensures Distinct(IDs(MergeAll(Root(created, root), sources)))
  {
    hide PrefixElementID, WellFormedSource, PrefixFree, ClearOfRoot, IDs;
    if sources == [] {
      assert IDs(Root(created, root)) == [ROOT_ID] by { OnlyRoot(created, root); }
    } else {
      var rest, last := sources[..|sources| - 1], sources[|sources| - 1];
      var merged := MergeAll(Root(created, root), rest);
      var mapped := Map((id: ElementID) => PrefixElementID(last.name + "-", id), IDs(last.doc));
      UniqueIDs(created, root, rest);
      IDsOfMerge(merged, last.doc, last.name);
      DistinctCounts(IDs(merged));
      MappedDistinct(last);
      DistinctCounts(mapped);
      forall id ensures multiset(IDs(MergeOne(merged, last.doc, last.name)))[id] <= 1 {
        if id in multiset(mapped) && id in multiset(IDs(merged)) {
          NoOverlap(created, root, sources, id);
        }
      }
      DistinctCounts(IDs(MergeOne(merged, last.doc, last.name)));
    }
  }

  lemma OnlyRoot(created: string, root: string)
    ensures IDs(Root(created, root)) == [ROOT_ID]
  {
  }

  lemma MappedDistinct(source: Source)
    requires WellFormedSource(source.doc)
    ensures Distinct(Map((id: ElementID) => PrefixElementID(source.name + "-", id), IDs(source.doc)))
  {
    var ids := IDs(source.doc);
    var p := source.name + "-";
    forall i, j | 0 <= i < j < |ids| ensures PrefixElementID(p, ids[i]) != PrefixElementID(p, ids[j]) {
      assert ids[i] in ids && ids[j] in ids;
      assert (p + ids[i])[|p|..] == ids[i] && (p + ids[j])[|p|..] == ids[j];
    }
  }

  /** What the last source adds was not there before. */
  lemma NoOverlap(created: string, root: string, sources: seq<Source>, id: ElementID)
    requires sources != []
    requires forall source :: source in sources ==> WellFormedSource(source.doc) && ClearOfRoot(source.name)
    requires forall i, j :: 0 <= i < j < |sources| ==> PrefixFree(sources[i].name, sources[j].name)
    requires var last := sources[|sources| - 1];
      id in Map((x: ElementID) => PrefixElementID(last.name + "-", x), IDs(last.doc))
    ensures id !in IDs(MergeAll(Root(created, root), sources[..|sources| - 1]))
  {
    hide IDs, PrefixFree, Distinct;
    var rest, last := sources[..|sources| - 1], sources[|sources| - 1];
    var mapped := Map((x: ElementID) => PrefixElementID(last.name + "-", x), IDs(last.doc));
    var i :| 0 <= i < |mapped| && mapped[i] == id;
    var y := IDs(last.doc)[i];
    assert y in IDs(last.doc) && y != DOCUMENT;
    assert id == last.name + "-" + y;
    assert last.name + "-" <= id;
    if id in IDs(MergeAll(Root(created, root), rest)) {
      Origin(created, root, rest, id);
      var k, x :| 0 <= k < |rest| && x in IDs(rest[k].doc) && id == PrefixElementID(rest[k].name + "-", x);
      Apart(sources, k, x, y);
    }
  }

  lemma Apart(sources: seq<Source>, k: nat, x: ElementID, y: ElementID)
    requires forall source :: source in sources ==> WellFormedSource(source.doc)
    requires forall i, j :: 0 <= i < j < |sources| ==> PrefixFree(sources[i].name, sources[j].name)
    requires k < |sources| - 1 && x in IDs(sources[k].doc) && y in IDs(sources[|sources| - 1].doc)
    ensures PrefixElementID(sources[k].name + "-", x) != PrefixElementID(sources[|sources| - 1].name + "-", y)
  {
    hide IDs, PrefixFree, Distinct;
    assert sources[k] in sources && sources[|sources| - 1] in sources;
    SeparateIff(sources[k].name, sources[|sources| - 1].name);
  }

  /** The synthetic root's identifier is out of reach of every element exactly when the source's name does not begin
  it. */
  lemma RootReachableIff(name: string)
    ensures ClearOfRoot(name) <==> forall x :: x != DOCUMENT ==> PrefixElementID(name + "-", x) != ROOT_ID
  {
    if name + "-" <= ROOT_ID {
      var x := ROOT_ID[|name + "-"|..];
      assert name + "-" + x == ROOT_ID;
      assert x != DOCUMENT by {
        if x != "" {
          assert x[|x| - 1] == ROOT_ID[|ROOT_ID| - 1] == 's';
          assert DOCUMENT[|DOCUMENT| - 1] == 'T';
        }
      }
      assert PrefixElementID(name + "-", x) == ROOT_ID;
    }
    forall x | x != DOCUMENT && PrefixElementID(name + "-", x) == ROOT_ID ensures name + "-" <= ROOT_ID {
      assert ROOT_ID == name + "-" + x;
    }
  }

  /** The names keep all elements apart. */
  ghost predicate Separate(names: seq<string>) {
    && (forall i, j :: 0 <= i < j < |names| ==> PrefixFree(names[i], names[j]))
    && (forall i :: 0 <= i < |names| ==> ClearOfRoot(names[i]))
  }

  ghost predicate Named(names: seq<string>, sources: seq<Source>) {
    && |sources| == |names|
    && forall k :: 0 <= k < |names| ==> sources[k].name == names[k] && WellFormedSource(sources[k].doc)
  }

  /** The merge keeps identifiers unique for all contents of its sources exactly when the sources' names are
  separate. */
  lemma UniqueForAllContentsIff(created: string, root: string, names: seq<string>)
    ensures Separate(names) <==>
      forall sources :: Named(names, sources) ==> Distinct(IDs(MergeAll(Root(created, root), sources)))
  {
    hide PrefixFree, ClearOfRoot, WellFormedSource, IDs, Distinct;
    if Separate(names) {
      forall sources | Named(names, sources) ensures Distinct(IDs(MergeAll(Root(created, root), sources))) {
        UniqueIDs(created, root, sources);
      }
    } else if i, j :| 0 <= i < j < |names| && !PrefixFree(names[i], names[j]) {
      CollidingContents(created, root, names, i, j);
    } else {
      var i :| 0 <= i < |names| && !ClearOfRoot(names[i]);
      RootCollision(created, root, names, i);
    }
  }

  /** A document with one package. */
  function Single(id: ElementID): Document { Document(DOCUMENT, "", [Element(id, "")], [], [], [], []) }

  /** Sources of the given names that are empty but for the packages `x` of the i-th and `y` of the j-th. */
  function TwoPackages(names: seq<string>, i: nat, x: ElementID, j: nat, y: ElementID): (sources: seq<Source>)
    ensures |sources| == |names|
  {
    seq(|names|, k requires 0 <= k < |names| =>
      Source(names[k], if k == i then Single(x) else if k == j then Single(y)
             else Document(DOCUMENT, "", [], [], [], [], [])))
  }

  lemma SingleIDs(id: ElementID)
    ensures IDs(Single(id)) == [id]
    ensures id != DOCUMENT ==> WellFormedSource(Single(id))
    ensures WellFormedSource(Document(DOCUMENT, "", [], [], [], [], []))
  {
  }

  lemma TwoPackagesNamed(names: seq<string>, i: nat, x: ElementID, j: nat, y: ElementID)
    requires x != DOCUMENT && y != DOCUMENT
    ensures Named(names, TwoPackages(names, i, x, j, y))
  {
    hide WellFormedSource, Single;
    SingleIDs(x);
    SingleIDs(y);
  }

  /** The identifiers a source contributes. */
  function Contributed(source: Source): seq<ElementID> {
    Map((id: ElementID) => PrefixElementID(source.name + "-", id), IDs(source.doc))
  }

  /** An identifier that the synthetic root and a source have, or that two sources have, occurs twice. */
  lemma {:induction false} OccursTwice(created: string, root: string, sources: seq<Source>, i: int, j: nat,
                                       id: ElementID)
    requires -1 <= i < j < |sources| && id in Contributed(sources[j])
    requires if i == -1 then id == ROOT_ID else id in Contributed(sources[i])
    ensures multiset(IDs(MergeAll(Root(created, root), sources)))[id] >= 2
  {
    hide IDs, Contributed;
    var rest, last := sources[..|sources| - 1], sources[|sources| - 1];
    IDsOfMerge(MergeAll(Root(created, root), rest), last.doc, last.name);
    ContributedIs(last);
    if j < |rest| {
      OccursTwice(created, root, rest, i, j, id);
    } else {
      OccursOnce(created, root, rest, i, id);
      assert id in multiset(Contributed(last));
    }
  }

  lemma ContributedIs(source: Source)
    ensures Contributed(source) == Map((id: ElementID) => PrefixElementID(source.name + "-", id), IDs(source.doc))
  {
  }

  lemma {:induction false} OccursOnce(created: string, root: string, sources: seq<Source>, i: int, id: ElementID)
    requires -1 <= i < |sources|
    requires if i == -1 then id == ROOT_ID else id in Contributed(sources[i])
    ensures multiset(IDs(MergeAll(Root(created, root), sources)))[id] >= 1
  {
    hide IDs, Contributed;
    if sources == [] {
      OnlyRoot(created, root);
      assert id in [ROOT_ID];
    } else {
      var rest, last := sources[..|sources| - 1], sources[|sources| - 1];
      IDsOfMerge(MergeAll(Root(created, root), rest), last.doc, last.name);
      ContributedIs(last);
      if i < |rest| {
        OccursOnce(created, root, rest, i, id);
      } else {
        assert id in multiset(Contributed(last));
      }
    }
  }

  lemma NotDistinct(ids: seq<ElementID>, id: ElementID)
    requires multiset(ids)[id] >= 2
    ensures !Distinct(ids)
  {
    DistinctCounts(ids);
  }

  lemma SingleContributes(name: string, id: ElementID)
    ensures PrefixElementID(name + "-", id) in Contributed(Source(name, Single(id)))
  {
    SingleIDs(id);
    assert Contributed(Source(name, Single(id)))[0] == PrefixElementID(name + "-", id);
  }

  lemma CollidingContents(created: string, root: string, names: seq<string>, i: nat, j: nat)
    requires i < j < |names| && !PrefixFree(names[i], names[j])
    ensures exists sources :: Named(names, sources) && !Distinct(IDs(MergeAll(Root(created, root), sources)))
  {
    hide PrefixFree, IDs, Distinct, Single, Contributed, PrefixElementID;
    SeparateIff(names[i], names[j]);
    var x, y :| x != DOCUMENT && y != DOCUMENT
        && PrefixElementID(names[i] + "-", x) == PrefixElementID(names[j] + "-", y);
    var sources := TwoPackages(names, i, x, j, y);
    TwoPackagesNamed(names, i, x, j, y);
    SingleContributes(names[i], x);
    SingleContributes(names[j], y);
    OccursTwice(created, root, sources, i, j, PrefixElementID(names[i] + "-", x));
    NotDistinct(IDs(MergeAll(Root(created, root), sources)), PrefixElementID(names[i] + "-", x));
  }

  lemma RootCollision(created: string, root: string, names: seq<string>, i: nat)
    requires i < |names| && !ClearOfRoot(names[i])
    ensures exists sources :: Named(names, sources) && !Distinct(IDs(MergeAll(Root(created, root), sources)))
  {
    hide ClearOfRoot, IDs, Distinct, Single, Contributed, PrefixElementID;
    RootReachableIff(names[i]);
    var x :| x != DOCUMENT && PrefixElementID(names[i] + "-", x) == ROOT_ID;
    var sources := TwoPackages(names, i, x, i, x);
    TwoPackagesNamed(names, i, x, i, x);
    SingleContributes(names[i], x);
    OccursTwice(created, root, sources, -1, i, ROOT_ID);
    NotDistinct(IDs(MergeAll(Root(created, root), sources)), ROOT_ID);
  }
}
