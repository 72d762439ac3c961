/** The SPDX bundle of an extension list (enterprise/spdx/builder/builder.go, spdx.go) and the key under which it is
shared (enterprise/spdx/builder/hash.go). SHA-256 is left out: claims are about what is hashed. */
module SpdxBundle {
  import opened Strings
  import opened Ordering
  import opened Extensions
  import opened SpdxMerge

  datatype File = File(filename: string, source: string, content: string)

  // ---------------------------------------------------------------- the hash preimage

  /** The text as NUL-terminated fields. */
  function Fields(fields: seq<string>): string {
    if fields == [] then "" else Fields(fields[..|fields| - 1]) + fields[|fields| - 1] + "\0"
  }

  const SCHEME := "sbom/v1"
  const ERRATA := "errata/document-identity"

  function Preimage(extensions: seq<string>, version: string, arch: string): string {
    Fields([SCHEME] + SortStrings(extensions) + [version, arch, ERRATA])
  }

  class Hasher {
    var written: string

    constructor ()
      ensures written == ""
    {
      written := "";
    }

    method WriteField(field: string)
      modifies this
      ensures written == old(written) + field + "\0"
    {
      written := written + field;
      written := written + "\0";
    }
  }

  /** Writes the fields in order of the sorted copy of the list; the list itself is not touched. */
  method Hash(extensions: array<string>, version: string, arch: string) returns (hasher: Hasher)
    ensures fresh(hasher) && hasher.written == Preimage(extensions[..], version, arch)
    ensures extensions[..] == old(extensions[..])
  {
    hide Fields, SortStrings;
    hasher := new Hasher();
    var all := [SCHEME] + SortStrings(extensions[..]) + [version, arch, ERRATA];
    hasher.WriteField(SCHEME);
    var sorted := SortStrings(extensions[..]);
    assert all[..1] == [SCHEME];
    FieldsStep(all, 0);
    for i := 0 to |sorted|
      invariant hasher.written == Fields(all[..1 + i])
    {
      FieldsStep(all, 1 + i);
      hasher.WriteField(sorted[i]);
    }
    FieldsStep(all, 1 + |sorted|);
    hasher.WriteField(version);
    FieldsStep(all, 2 + |sorted|);
    hasher.WriteField(arch);
    FieldsStep(all, 3 + |sorted|);
    hasher.WriteField(ERRATA);
    assert all[..|all|] == all;
  }

  lemma FieldsStep(fields: seq<string>, i: nat)
    requires i < |fields|
    ensures Fields(fields[..i + 1]) == Fields(fields[..i]) + fields[i] + "\0"
    ensures i == 0 ==> Fields(fields[..i]) == ""
  {
    assert fields[..i + 1][..i] == fields[..i];
  }

  predicate NulFree(s: string) { '\0' !in s }

  /** NUL-free fields can be told apart. */
  lemma {:induction false} FieldsInjective(a: seq<string>, b: seq<string>)
    requires forall f :: f in a || f in b ==> NulFree(f)
    ensures Fields(a) == Fields(b) <==> a == b
  {
    if Fields(a) == Fields(b) {
      if a == [] || b == [] {
        EmptyFields(a);
        EmptyFields(b);
      } else {
        var x, y := Fields(a[..|a| - 1]), Fields(b[..|b| - 1]);
        LastNulField(x, a[|a| - 1], y, b[|b| - 1]);
        FieldsInjective(a[..|a| - 1], b[..|b| - 1]);
        assert a == a[..|a| - 1] + [a[|a| - 1]] && b == b[..|b| - 1] + [b[|b| - 1]];
      }
    }
  }

  lemma EmptyFields(a: seq<string>)
    ensures Fields(a) == "" <==> a == []
    ensures a != [] ==> Fields(a)[|Fields(a)| - 1] == '\0'
  {
  }

  lemma LastNulField(x: string, s: string, y: string, t: string)
    requires NulFree(s) && NulFree(t) && x + s + "\0" == y + t + "\0"
    requires x == "" || x[|x| - 1] == '\0'
    requires y == "" || y[|y| - 1] == '\0'
    ensures x == y && s == t
  {
    var u := x + s;
    assert u == (x + s + "\0")[..|u|] == (y + t + "\0")[..|u|] == y + t;
    NoShorter(u, x, s, y, t);
    NoShorter(u, y, t, x, s);
    assert x == u[..|x|] && y == u[..|y|] && s == u[|x|..] && t == u[|y|..];
  }

  lemma NoShorter(u: string, x: string, s: string, y: string, t: string)
    requires u == x + s == y + t && NulFree(s) && (y == "" || y[|y| - 1] == '\0')
    ensures |y| <= |x|
  {
    assert forall i :: |x| <= i < |u| ==> u[i] == s[i - |x|];
    assert y != "" ==> u[|y| - 1] == '\0';
  }

  /** Two extension lists share a bundle exactly when they are permutations of each other and version and architecture
  agree, provided that no field contains a NUL. */
  lemma PreimagesAgreeIff(a: seq<string>, va: string, archA: string, b: seq<string>, vb: string, archB: string)
    requires forall e :: e in a || e in b ==> NulFree(e)
    requires NulFree(va) && NulFree(archA) && NulFree(vb) && NulFree(archB)
    ensures Preimage(a, va, archA) == Preimage(b, vb, archB)
        <==> multiset(a) == multiset(b) && va == vb && archA == archB
  {
    hide Fields, SortStrings;
    var x, y := SortStrings(a), SortStrings(b);
    var fa := [SCHEME] + x + [va, archA, ERRATA];
    var fb := [SCHEME] + y + [vb, archB, ERRATA];
    SameElements(a, x);
    SameElements(b, y);
    forall f | f in fa || f in fb ensures NulFree(f) {
      ConstantsAreNulFree();
    }
    FieldsInjective(fa, fb);
    if fa == fb {
      assert x == fa[1..|fa| - 3] && y == fb[1..|fb| - 3];
      assert va == fa[|fa| - 3] && vb == fb[|fb| - 3] && archA == fa[|fa| - 2] && archB == fb[|fb| - 2];
    }
    if multiset(a) == multiset(b) {
      CompareStringsIsTotalOrder();
      SortedPermutationUnique(CompareStrings, x, y);
    }
  }

  lemma ConstantsAreNulFree()
    ensures NulFree(SCHEME) && NulFree(ERRATA)
  {
  }

  lemma SameElements<T>(a: seq<T>, b: seq<T>)
    requires multiset(a) == multiset(b)
    ensures forall x :: x in a <==> x in b
  {
    assert forall x :: x in a <==> x in multiset(a);
    assert forall x :: x in b <==> x in multiset(b);
  }

  // ---------------------------------------------------------------- extraction

  /** What the registries hold: the SPDX files of Talos and the extensions of a version, and the SPDX files in the image
  of an extension. */
  datatype World = World(
    talos: (string, string) -> seq<(string, string)>,
    available: string -> seq<ExtensionRef>,
    contents: (string, ExtensionRef) -> seq<(string, string)>)

  /** What fails in one build: reading Talos, listing the extensions, or extracting those at some places of the list. */
  datatype Faults = Faults(talos: bool, listing: bool, extractions: set<nat>)

  /** An image that was read, and the source its files are filed under. */
  datatype Image = Image(source: string, ref: ExtensionRef)

  function ImageOf(available: seq<ExtensionRef>, arch: string, name: string): Option<Image> {
    match Resolve(available, name)
    case None => None
    case Some(r) => Some(Image(AfterLastSlash(name) + "-" + arch, r))
  }

  /** The images read for a list: none for a name that is unknown or whose extraction fails. */
  function ImagesOf(available: seq<ExtensionRef>, arch: string, extensions: seq<string>, failed: set<nat>): seq<Image> {
    if extensions == [] then []
    else
      var n := |extensions| - 1;
      ImagesOf(available, arch, extensions[..n], failed) + ImageAt(available, arch, extensions[n], n in failed)
  }

  function ImageAt(available: seq<ExtensionRef>, arch: string, name: string, fails: bool): seq<Image> {
    match ImageOf(available, arch, name)
    case None => []
    case Some(image) => if fails then [] else [image]
  }

  function Images(world: World, version: string, arch: string, extensions: seq<string>, faults: Faults): seq<Image> {
    if faults.listing then [] else ImagesOf(world.available(version), arch, extensions, faults.extractions)
  }

  function Filed(source: string, contents: seq<(string, string)>): seq<File> {
    Map((f: (string, string)) => File(f.0, source, f.1), contents)
  }

  /** The files of the images, in order. */
  function Extracted(world: World, arch: string, images: seq<Image>): seq<File> {
    if images == [] then []
    else
      var last := images[|images| - 1];
      Extracted(world, arch, images[..|images| - 1]) + Filed(last.source, world.contents(arch, last.ref))
  }

  lemma {:induction false} ExtractedConcat(world: World, arch: string, a: seq<Image>, b: seq<Image>)
    ensures Extracted(world, arch, a + b) == Extracted(world, arch, a) + Extracted(world, arch, b)
  {
    if b == [] {
      assert a + b == a;
    } else {
      ExtractedConcat(world, arch, a, b[..|b| - 1]);
      assert (a + b)[..|a + b| - 1] == a + b[..|b| - 1];
    }
  }

  lemma OneImage(world: World, arch: string, image: Image)
    ensures Extracted(world, arch, [image]) == Filed(image.source, world.contents(arch, image.ref))
  {
    assert [image][..0] == [];
  }

  lemma NoImage(world: World, arch: string)
    ensures Extracted(world, arch, []) == []
  {
  }

  /** Permuting the images permutes the files. */
  lemma {:induction false} ExtractedPermutes(world: World, arch: string, a: seq<Image>, b: seq<Image>)
    requires multiset(a) == multiset(b)
    ensures multiset(Extracted(world, arch, a)) == multiset(Extracted(world, arch, b))
  {
    assert |multiset(a)| == |a| && |multiset(b)| == |b|;
    if a != [] {
      var x, rest := a[|a| - 1], a[..|a| - 1];
      assert a == rest + [x];
      assert x in multiset(b);
      var k :| 0 <= k < |b| && b[k] == x;
      var before, after := b[..k], b[k + 1..];
      assert b == before + ([x] + after);
      RemoveOne(rest, before, after, x);
      ExtractedPermutes(world, arch, rest, before + after);
      ExtractedConcat(world, arch, before, after);
      ExtractedConcat(world, arch, before, [x] + after);
      ExtractedConcat(world, arch, [x], after);
      ExtractedConcat(world, arch, rest, [x]);
    }
  }

  /** Permuting the list permutes the images, if no extraction fails. */
  lemma {:induction false} ImagesPermute(available: seq<ExtensionRef>, arch: string, a: seq<string>, b: seq<string>)
    requires multiset(a) == multiset(b)
    ensures multiset(ImagesOf(available, arch, a, {})) == multiset(ImagesOf(available, arch, b, {}))
  {
    hide ImageAt;
    assert |multiset(a)| == |a| && |multiset(b)| == |b|;
    if a != [] {
      var x, rest := a[|a| - 1], a[..|a| - 1];
      assert a == rest + [x];
      assert x in multiset(b);
      var k :| 0 <= k < |b| && b[k] == x;
      var before, after := b[..k], b[k + 1..];
      assert b == before + ([x] + after);
      RemoveOne(rest, before, after, x);
      ImagesPermute(available, arch, rest, before + after);
      ImagesConcat(available, arch, before, after);
      ImagesConcat(available, arch, before, [x] + after);
      ImagesConcat(available, arch, [x], after);
      ImagesConcat(available, arch, rest, [x]);
    }
  }

  lemma {:induction false} ImagesConcat(available: seq<ExtensionRef>, arch: string, a: seq<string>, b: seq<string>)
    ensures ImagesOf(available, arch, a + b, {}) == ImagesOf(available, arch, a, {}) + ImagesOf(available, arch, b, {})
  {
    hide ImageAt;
    if b == [] {
      assert a + b == a;
    } else {
      ImagesConcat(available, arch, a, b[..|b| - 1]);
      assert (a + b)[..|a + b| - 1] == a + b[..|b| - 1];
    }
  }

  lemma RemoveOne<T(!new)>(rest: seq<T>, before: seq<T>, after: seq<T>, x: T)
    requires multiset(rest + [x]) == multiset(before + ([x] + after))
    ensures multiset(rest) == multiset(before + after)
  {
    assert multiset(rest + [x]) == multiset(rest) + multiset{x};
    assert multiset(before + ([x] + after)) == multiset(before + after) + multiset{x};
    forall y ensures multiset(rest)[y] == multiset(before + after)[y] {
      assert (multiset(rest) + multiset{x})[y] == (multiset(before + after) + multiset{x})[y];
    }
  }

  lemma ExtractedNext(world: World, available: seq<ExtensionRef>, arch: string, extensions: seq<string>,
                      failed: set<nat>, i: nat)
    requires i < |extensions|
    ensures Extracted(world, arch, ImagesOf(available, arch, extensions[..i + 1], failed))
         == Extracted(world, arch, ImagesOf(available, arch, extensions[..i], failed))
            + Extracted(world, arch, ImageAt(available, arch, extensions[i], i in failed))
  {
    hide ImageAt, Extracted;
    assert extensions[..i + 1][..i] == extensions[..i];
    ExtractedConcat(world, arch, ImagesOf(available, arch, extensions[..i], failed),
                    ImageAt(available, arch, extensions[i], i in failed));
  }

  lemma NoneListed(available: seq<ExtensionRef>, arch: string, extensions: seq<string>, failed: set<nat>)
    requires extensions == []
    ensures ImagesOf(available, arch, extensions, failed) == []
  {
  }

  // ---------------------------------------------------------------- sorting and merging

  function CompareFiles(a: File, b: File): int {
    if a.source != b.source then CompareStrings(a.source, b.source) else CompareStrings(a.filename, b.filename)
  }

  /** Files are in order of their sources, those of one source in order of their names. */
  lemma CompareFilesIff(a: File, b: File)
    ensures CompareFiles(a, b) < 0 <==>
      StringBefore(a.source, b.source) || (a.source == b.source && StringBefore(a.filename, b.filename))
  {
    CompareStringsIsTotalOrder();
    CompareStringsIff(a.source, b.source);
    CompareStringsIff(a.filename, b.filename);
    hide CompareStrings, StringBefore;
  }

  function CompareWhole(a: File, b: File): int {
    if CompareFiles(a, b) != 0 then CompareFiles(a, b) else CompareStrings(a.content, b.content)
  }

  lemma FileOrders()
    ensures Preorder(CompareFiles) && TotalOrder(CompareWhole)
  {
    CompareStringsIsTotalOrder();
    hide CompareStrings;
  }

  /** Source and file name determine the file. */
  ghost predicate KeysDetermine(files: seq<File>) {
    forall f, g :: f in files && g in files && CompareFiles(f, g) == 0 ==> f == g
  }

  ghost predicate SortedPermutation(files: seq<File>, a: seq<File>) {
    Sorted(CompareFiles, a) && multiset(a) == multiset(files)
  }

  lemma SortedWhole(files: seq<File>, a: seq<File>)
    requires KeysDetermine(files) && SortedPermutation(files, a)
    ensures Sorted(CompareWhole, a)
  {
    FileOrders();
    SameElements(files, a);
    hide CompareFiles;
    forall i, j | 0 <= i < j < |a| ensures CompareWhole(a[i], a[j]) <= 0 {
      assert CompareFiles(a[i], a[j]) <= 0;
      assert a[i] in files && a[j] in files;
      assert CompareFiles(a[i], a[j]) == 0 ==> CompareWhole(a[i], a[j]) == 0;
    }
  }

  /** The sort leaves no choice exactly when source and file name determine the file. */
  lemma OneOrderIff(files: seq<File>)
    ensures KeysDetermine(files) <==>
      forall a, b :: SortedPermutation(files, a) && SortedPermutation(files, b) ==> a == b
  {
    hide CompareFiles, CompareWhole;
    FileOrders();
    if KeysDetermine(files) {
      forall a, b | SortedPermutation(files, a) && SortedPermutation(files, b) ensures a == b {
        SortedWhole(files, a);
        SortedWhole(files, b);
        SortedPermutationUnique(CompareWhole, a, b);
      }
    } else {
      var f, g :| f in files && g in files && CompareFiles(f, g) == 0 && f != g;
      TwoOrders(files, f, g);
    }
  }

  lemma TwoOrders(files: seq<File>, f: File, g: File)
    requires f in files && g in files && CompareFiles(f, g) == 0 && f != g
    ensures exists a, b :: SortedPermutation(files, a) && SortedPermutation(files, b) && a != b
  {
    hide CompareFiles;
    FileOrders();
    var rest := Without(Without(files, f), g);
    var s := Sort(CompareFiles, rest);
    TakenOut(files, f, g);
    InsertBoth(files, f, g, s);
    InsertBoth(files, g, f, s);
    InsertOrderMatters(CompareFiles, f, g, s);
  }

  lemma TakenOut(files: seq<File>, f: File, g: File)
    requires f in files && g in files && f != g
    ensures multiset(Without(Without(files, f), g)) + multiset{f} + multiset{g} == multiset(files)
    ensures multiset(Without(Without(files, f), g)) + multiset{g} + multiset{f} == multiset(files)
  {
    var rest := Without(files, f);
    TakenOutOne(files, f);
    TakenOutOne(rest, g);
    hide Without;
    assert multiset{f} + multiset{g} == multiset{g} + multiset{f};
  }

  lemma TakenOutOne(files: seq<File>, f: File)
    requires f in files
    ensures multiset(Without(files, f)) + multiset{f} == multiset(files)
  {
    assert f in multiset(files);
  }

  lemma InsertBoth(files: seq<File>, f: File, g: File, s: seq<File>)
    requires Sorted(CompareFiles, s) && multiset(s) + multiset{f} + multiset{g} == multiset(files)
    ensures SortedPermutation(files, Insert(CompareFiles, f, Insert(CompareFiles, g, s)))
  {
    FileOrders();
    hide CompareFiles, Insert, Sorted;
    InsertKeepsSorted(CompareFiles, g, s);
    InsertKeepsSorted(CompareFiles, f, Insert(CompareFiles, g, s));
  }

  function Without(files: seq<File>, f: File): (r: seq<File>)
    requires f in files
    ensures multiset(r) == multiset(files) - multiset{f}
    ensures forall g :: g in files && g != f ==> g in r
  {
    assert files == [files[0]] + files[1..];
    if files[0] == f then files[1..] else [files[0]] + Without(files[1..], f)
  }

  lemma {:induction false} InsertOrderMatters<T(!new)>(cmp: (T, T) -> int, f: T, g: T, s: seq<T>)
    requires Preorder(cmp) && cmp(f, g) == 0 && f != g
    ensures Insert(cmp, f, Insert(cmp, g, s)) != Insert(cmp, g, Insert(cmp, f, s))
  {
    if s != [] && cmp(f, s[0]) > 0 {
      InsertOrderMatters(cmp, f, g, s[1..]);
      var x, y := Insert(cmp, f, Insert(cmp, g, s)), Insert(cmp, g, Insert(cmp, f, s));
      assert Insert(cmp, g, s)[1..] == Insert(cmp, g, s[1..]) && Insert(cmp, f, s)[1..] == Insert(cmp, f, s[1..]);
      assert x[1..] == Insert(cmp, f, Insert(cmp, g, s[1..])) && y[1..] == Insert(cmp, g, Insert(cmp, f, s[1..]));
    } else {
      assert Insert(cmp, f, Insert(cmp, g, s))[0] == f;
      assert Insert(cmp, g, Insert(cmp, f, s))[0] == g;
    }
  }

  datatype Result = Built(doc: Document) | ParseError(file: File) | TalosError

  /** Merges the files in the order given; the Talos document of the architecture lends its time of creation. */
  function MergeFiles(parse: string -> Option<Document>, arch: string, root: string, files: seq<File>): Result {
    if files == [] then Built(Root("", root))
    else
      match MergeFiles(parse, arch, root, files[..|files| - 1])
      case Built(merged) => MergeFile(parse, arch, merged, files[|files| - 1])
      case error => error
  }

  function MergeFile(parse: string -> Option<Document>, arch: string, merged: Document, last: File): Result {
    match parse(last.content)
    case None => ParseError(last)
    case Some(doc) =>
      Built(MergeOne(merged.(created := if last.filename == TalosFile(arch) then doc.created else merged.created), doc,
                     last.source))
  }

  function TalosFile(arch: string): string { "talos-" + arch + ".spdx.json" }

  /** The parsed files, as the merge lemmas speak of them. */
  function Sources(parse: string -> Option<Document>, files: seq<File>): seq<Source>
    requires forall f :: f in files ==> parse(f.content).Some?
  {
    seq(|files|, i requires 0 <= i < |files| => Source(files[i].source, parse(files[i].content).value))
  }

  /** Merging files in this way is the merge of their documents, but for the time of creation. */
  lemma {:induction false} MergeFilesMergesAll(parse: string -> Option<Document>, arch: string, root: string,
                                               files: seq<File>)
    ensures MergeFiles(parse, arch, root, files).Built? <==> forall f :: f in files ==> parse(f.content).Some?
    ensures MergeFiles(parse, arch, root, files).Built? ==>
      MergeFiles(parse, arch, root, files).doc.(created := "") == MergeAll(Root("", root), Sources(parse, files))
  {
    if files != [] {
      var rest, last := files[..|files| - 1], files[|files| - 1];
      MergeFilesMergesAll(parse, arch, root, rest);
      assert files == rest + [last];
      if MergeFiles(parse, arch, root, files).Built? {
        var sources := Sources(parse, files);
        assert sources[..|sources| - 1] == Sources(parse, rest);
        CreatedStays("", Root("", root), Sources(parse, rest));
      }
    }
  }

  lemma {:induction false} CreatedStays(created: string, root: Document, sources: seq<Source>)
    ensures MergeAll(root, sources).created == root.created
  {
    if sources != [] {
      CreatedStays(created, root, sources[..|sources| - 1]);
    }
  }

  // ---------------------------------------------------------------- building, as it runs

  class Bundle {
    const arch: string
    var files: seq<File>

    constructor (arch: string, files: seq<File>)
      ensures this.arch == arch && this.files == files
    {
      this.arch, this.files := arch, files;
    }

    /** Adds Talos's own files. */
    method ExtractTalosSPDX(world: World, version: string, faults: Faults) returns (ok: bool)
      modifies this`files
      ensures ok <==> !faults.talos
      ensures files == old(files) + if ok then Filed("talos", world.talos(version, arch)) else []
    {
      if faults.talos {
        return false;
      }
      AppendFiles(world.talos(version, arch), "talos");
      ok := true;
    }

    /** Adds the files of the listed extensions, in the order of the list. */
    method ExtractExtensionsSPDX(world: World, version: string, extensions: seq<string>, faults: Faults)
        returns (ok: bool)
      modifies this`files
      ensures ok <==> !faults.listing
      ensures files == old(files) + Extracted(world, arch, Images(world, version, arch, extensions, faults))
    {
      hide ImageAt, ImagesOf, Extracted;
      NoImage(world, arch);
      if faults.listing {
        return false;
      }
      var available := world.available(version);
      NoneListed(available, arch, extensions[..0], faults.extractions);
      for i := 0 to |extensions|
        invariant files
            == old(files) + Extracted(world, arch, ImagesOf(available, arch, extensions[..i], faults.extractions))
      {
        ExtractedNext(world, available, arch, extensions, faults.extractions, i);
        ExtractExtension(world, available, extensions[i], i in faults.extractions);
      }
      assert extensions[..|extensions|] == extensions;
      ok := true;
    }

    /** A name that is unknown, or that cannot be extracted, is skipped. */
    method ExtractExtension(world: World, available: seq<ExtensionRef>, name: string, fails: bool)
      modifies this`files
      ensures files == old(files) + Extracted(world, arch, ImageAt(available, arch, name, fails))
    {
      hide Filed, FindExtension, ExtensionNameAlias, AfterLastSlash, Extracted;
      var ref := FindExtension(available, name);
      if ref.None? {
        var other := ExtensionNameAlias(name);
        if other.Some? {
          ref := FindExtension(available, other.value);
        }
      }
      if ref.Some? && !fails {
        var source := AfterLastSlash(name) + "-" + arch;
        AppendFiles(world.contents(arch, ref.value), source);
        OneImage(world, arch, Image(source, ref.value));
      } else {
        NoImage(world, arch);
      }
    }

    method AppendFiles(extracted: seq<(string, string)>, source: string)
      modifies this`files
      ensures files == old(files) + Filed(source, extracted)
    {
      for j := 0 to |extracted|
        invariant files == old(files) + Filed(source, extracted)[..j]
      {
        files := files + [File(extracted[j].0, source, extracted[j].1)];
      }
    }

    /** Sorts the files in place and merges them in that order; the first one that does not parse ends it. */
    method BundleToJSON(parse: string -> Option<Document>, root: string) returns (result: Result)
      modifies this`files
      ensures SortedPermutation(old(files), files)
      ensures result == MergeFiles(parse, arch, root, files)
    {
      FileOrders();
      files := Sort(CompareFiles, files);
      result := MergeSorted(parse, arch, root, files);
    }
  }

  method MergeSorted(parse: string -> Option<Document>, arch: string, root: string, files: seq<File>)
      returns (result: Result)
    ensures result == MergeFiles(parse, arch, root, files)
  {
    hide MergeFiles;
    var merged := new MergedDocument(root);
    assert MergeFiles(parse, arch, root, files[..0]) == Built(merged.Value()) by {
      MergeNothing(parse, arch, root, files[..0]);
    }
    for i := 0 to |files|
      invariant fresh(merged)
      invariant MergeFiles(parse, arch, root, files[..i]) == Built(merged.Value())
    {
      MergeNext(parse, arch, root, files, i);
      var doc := parse(files[i].content);
      if doc.None? {
        FirstFailure(parse, arch, root, files, i);
        return ParseError(files[i]);
      }
      if files[i].filename == TalosFile(arch) {
        merged.created := doc.value.created;
      }
      merged.MergeDocument(doc.value, files[i].source);
    }
    assert files[..|files|] == files;
    result := Built(merged.Value());
  }

  lemma MergeNothing(parse: string -> Option<Document>, arch: string, root: string, files: seq<File>)
    requires files == []
    ensures MergeFiles(parse, arch, root, files) == Built(Root("", root))
  {
  }

  lemma MergeNext(parse: string -> Option<Document>, arch: string, root: string, files: seq<File>, i: nat)
    requires i < |files| && MergeFiles(parse, arch, root, files[..i]).Built?
    ensures MergeFiles(parse, arch, root, files[..i + 1])
         == MergeFile(parse, arch, MergeFiles(parse, arch, root, files[..i]).doc, files[i])
  {
    assert files[..i + 1][..i] == files[..i];
  }

  lemma {:induction false} FirstFailure(parse: string -> Option<Document>, arch: string, root: string,
                                        files: seq<File>, i: nat)
    requires i < |files| && MergeFiles(parse, arch, root, files[..i + 1]).ParseError?
    ensures MergeFiles(parse, arch, root, files) == MergeFiles(parse, arch, root, files[..i + 1])
    decreases |files| - i
  {
    if i + 1 < |files| {
      assert files[..i + 2][..i + 1] == files[..i + 1];
      FirstFailure(parse, arch, root, files, i + 1);
    } else {
      assert files[..i + 1] == files;
    }
  }
}
