/** When the SPDX bundle stored for one extension list is the bundle of every list that shares it
(enterprise/spdx/builder/builder.go, buildBundle). A build skips the extensions it could not extract, and stores what it
has under the same key. */
module SharedBundle {
  import opened Strings
  import opened Ordering
  import opened Extensions
  import opened SpdxMerge
  import opened SpdxBundle
  import opened SpdxContents

  type Parse = string -> Option<Document>

  /** All files of a build that can read Talos. */
  function Collected(world: World, version: string, arch: string, extensions: seq<string>, faults: Faults): seq<File> {
    Filed("talos", world.talos(version, arch))
        + Extracted(world, arch, Images(world, version, arch, extensions, faults))
  }

  /** The files of Talos, filed as such, and then what the entries of the list add, unless they could not be listed. */
  lemma CollectedInOrder(world: World, version: string, arch: string, extensions: seq<string>, faults: Faults)
    returns (talos: seq<File>, pieces: seq<seq<File>>)
    ensures Collected(world, version, arch, extensions, faults) == talos + Flatten(pieces)
    ensures IsFiled(world.talos(version, arch), "talos", talos)
    ensures |pieces| == if faults.listing then 0 else |extensions|
    ensures forall i :: 0 <= i < |pieces| ==>
      Adds(world, world.available(version), arch, extensions[i], i in faults.extractions, pieces[i])
  {
    hide Adds, Extracted, ImagesOf;
    talos := Filed("talos", world.talos(version, arch));
    pieces := [];
    NoImage(world, arch);
    if !faults.listing {
      pieces := ExtractedInOrder(world, world.available(version), arch, extensions, faults.extractions);
    }
  }

  /** What a build may yield: its files, in some order that the sort leaves them in, merged. */
  ghost predicate Builds(world: World, parse: Parse, root: string -> string, version: string, arch: string,
                         extensions: seq<string>, faults: Faults, result: Result) {
    if faults.talos then result == TalosError
    else
      exists files :: SortedPermutation(Collected(world, version, arch, extensions, faults), files)
                      && result == MergeFiles(parse, arch, root(version), files)
  }

  /** Builds a bundle. That extensions could not be listed is only logged. */
  method BuildBundle(world: World, parse: Parse, root: string -> string, version: string, arch: string,
                     extensions: seq<string>, faults: Faults) returns (result: Result)
    ensures Builds(world, parse, root, version, arch, extensions, faults, result)
  {
    hide Extracted, Filed, Images, MergeFiles;
    var bundle := new Bundle(arch, []);
    var ok := bundle.ExtractTalosSPDX(world, version, faults);
    if !ok {
      return TalosError;
    }
    ok := bundle.ExtractExtensionsSPDX(world, version, extensions, faults);
    assert bundle.files == Collected(world, version, arch, extensions, faults);
    result := bundle.BundleToJSON(parse, root(version));
  }

  // ---------------------------------------------------------------- two builds that share a key

  /** The shared bundle is sound: what one build under a key yields is what every other build under that key yields, if
  both read the same images and source and file name determine the files. */
  lemma SharedBundleIsEachOnes(world: World, parse: Parse, root: string -> string,
                               a: seq<string>, version: string, arch: string, faults: Faults, ra: Result,
                               b: seq<string>, versionB: string, archB: string, faultsB: Faults, rb: Result)
    requires forall e :: e in a || e in b ==> NulFree(e)
    requires NulFree(version) && NulFree(arch) && NulFree(versionB) && NulFree(archB)
    requires Preimage(a, version, arch) == Preimage(b, versionB, archB)
    requires faults.talos == faultsB.talos
    requires multiset(Images(world, version, arch, a, faults)) == multiset(Images(world, version, arch, b, faultsB))
    requires KeysDetermine(Collected(world, version, arch, a, faults))
    requires Builds(world, parse, root, version, arch, a, faults, ra)
    requires Builds(world, parse, root, versionB, archB, b, faultsB, rb)
    ensures ra == rb && version == versionB && arch == archB
  {
    PreimagesAgreeIff(a, version, arch, b, versionB, archB);
    ExtractedPermutes(world, arch, Images(world, version, arch, a, faults), Images(world, version, arch, b, faultsB));
    var fa := Collected(world, version, arch, a, faults);
    var fb := Collected(world, version, arch, b, faultsB);
    hide Extracted, Images, Filed, KeysDetermine, CompareFiles, Preimage, MergeFiles, Sorted;
    if !faults.talos {
      var x :| SortedPermutation(fa, x) && ra == MergeFiles(parse, arch, root(version), x);
      var y :| SortedPermutation(fb, y) && rb == MergeFiles(parse, arch, root(version), y);
      assert multiset(fa) == multiset(fb);
      assert SortedPermutation(fa, y);
      OneOrderIff(fa);
    }
  }

  /** Two builds read the same images if none of them misses one that it could have read. */
  predicate Missed(world: World, version: string, extensions: seq<string>, faults: Faults) {
    exists i :: 0 <= i < |extensions| && Resolve(world.available(version), extensions[i]).Some?
                && (faults.listing || i in faults.extractions)
  }

  const NONE := Faults(false, false, {})

  lemma {:induction false} ImagesMissIff(available: seq<ExtensionRef>, arch: string, extensions: seq<string>,
                                         failed: set<nat>)
    ensures |ImagesOf(available, arch, extensions, failed)| <= |ImagesOf(available, arch, extensions, {})|
    ensures |ImagesOf(available, arch, extensions, failed)| == |ImagesOf(available, arch, extensions, {})|
       <==> forall i :: 0 <= i < |extensions| && i in failed ==> Resolve(available, extensions[i]).None?
    ensures |ImagesOf(available, arch, extensions, {})| == 0
       <==> forall i :: 0 <= i < |extensions| ==> Resolve(available, extensions[i]).None?
    ensures |ImagesOf(available, arch, extensions, failed)| == |ImagesOf(available, arch, extensions, {})| ==>
      ImagesOf(available, arch, extensions, failed) == ImagesOf(available, arch, extensions, {})
  {
    hide Resolve, AfterLastSlash;
    if extensions != [] {
      var n := |extensions| - 1;
      ImagesMissIff(available, arch, extensions[..n], failed);
      assert forall i :: 0 <= i < n ==> extensions[..n][i] == extensions[i];
    }
  }

  /** A build reads what one without faults reads exactly when it misses nothing; otherwise it reads fewer images. */
  lemma MissesIff(world: World, version: string, arch: string, extensions: seq<string>, faults: Faults)
    ensures !Missed(world, version, extensions, faults) ==>
      Images(world, version, arch, extensions, faults) == Images(world, version, arch, extensions, NONE)
    ensures Missed(world, version, extensions, faults) ==>
      |Images(world, version, arch, extensions, faults)| < |Images(world, version, arch, extensions, NONE)|
  {
    hide Resolve, ImagesOf;
    ImagesMissIff(world.available(version), arch, extensions, faults.extractions);
  }

  // ---------------------------------------------------------------- a build that misses something

  /** The same registries, with one SPDX file in every extension image and none in Talos. */
  function OneFileEach(world: World): World {
    world.(talos := (version, arch) => [], contents := (arch, ref) => [("extension.spdx.json", "spdx")])
  }

  /** Every file is a document with one package. */
  function OnePackage(): Parse { (content: string) => Some(Single("Package")) }

  lemma {:induction false} OneFileEachExtracts(world: World, arch: string, images: seq<Image>)
    ensures var files := Extracted(OneFileEach(world), arch, images);
      |files| == |images| && forall f :: f in files ==> f.filename == "extension.spdx.json" && f.content == "spdx"
  {
    if images != [] {
      OneFileEachExtracts(world, arch, images[..|images| - 1]);
    }
  }

  /** Merging files of one package each yields a document with as many packages, and the synthetic root. */
  lemma {:induction false} PackagesCount(arch: string, root: string, files: seq<File>)
    ensures MergeFiles(OnePackage(), arch, root, files).Built?
    ensures |MergeFiles(OnePackage(), arch, root, files).doc.packages| == 1 + |files|
  {
    if files != [] {
      PackagesCount(arch, root, files[..|files| - 1]);
    }
  }

  lemma OneFileEachBuilds(world: World, root: string -> string, version: string, arch: string, extensions: seq<string>,
                          faults: Faults, result: Result)
    requires !faults.talos && Builds(OneFileEach(world), OnePackage(), root, version, arch, extensions, faults, result)
    ensures KeysDetermine(Collected(OneFileEach(world), version, arch, extensions, faults))
    ensures result.Built? && |result.doc.packages| == 1 + |Images(world, version, arch, extensions, faults)|
  {
    var images := Images(world, version, arch, extensions, faults);
    var files := Collected(OneFileEach(world), version, arch, extensions, faults);
    assert Images(OneFileEach(world), version, arch, extensions, faults) == images;
    OneFileEachExtracts(world, arch, images);
    hide Images, MergeFiles, Sorted, CompareStrings;
    assert files == Extracted(OneFileEach(world), arch, images);
    hide Extracted;
    var sorted :| SortedPermutation(files, sorted) && result == MergeFiles(OnePackage(), arch, root(version), sorted);
    PackagesCount(arch, root(version), sorted);
    assert |multiset(sorted)| == |multiset(files)|;
    CompareStringsIsTotalOrder();
  }

  lemma SomeBuild(world: World, parse: Parse, root: string -> string, version: string, arch: string,
                  extensions: seq<string>, faults: Faults) returns (result: Result)
    ensures Builds(world, parse, root, version, arch, extensions, faults, result)
  {
    hide Extracted, Images, MergeFiles, CompareFiles, Filed;
    var files := Collected(world, version, arch, extensions, faults);
    FileOrders();
    result := if faults.talos then TalosError else MergeFiles(parse, arch, root(version), Sort(CompareFiles, files));
  }

  /** The registries list the same extensions, and what is in the images is up to `contents` and `talos`. */
  ghost predicate SameListing(world: World, other: World) { other.available == world.available }

  /** A build whose faults did not keep it from reading Talos yields what a build without faults yields, whatever is in
  the images, exactly when it missed no extension that is available. Otherwise there are images for which the document
  it stores lacks packages that the one without faults has. */
  lemma StoredBundleIsCompleteIff(world: World, root: string -> string, version: string, arch: string,
                                  extensions: seq<string>, faults: Faults)
    requires !faults.talos
    ensures !Missed(world, version, extensions, faults) <==>
      forall other: World, parse: Parse, stored: Result, complete: Result ::
        (&& SameListing(world, other)
         && KeysDetermine(Collected(other, version, arch, extensions, NONE))
         && Builds(other, parse, root, version, arch, extensions, faults, stored)
         && Builds(other, parse, root, version, arch, extensions, NONE, complete))
        ==> stored == complete
  {
    hide Builds, KeysDetermine, Collected, Images, Preimage;
    if Missed(world, version, extensions, faults) {
      var other := OneFileEach(world);
      var stored := SomeBuild(other, OnePackage(), root, version, arch, extensions, faults);
      var complete := SomeBuild(other, OnePackage(), root, version, arch, extensions, NONE);
      OneFileEachBuilds(world, root, version, arch, extensions, faults, stored);
      OneFileEachBuilds(world, root, version, arch, extensions, NONE, complete);
      MissesIff(world, version, arch, extensions, faults);
      assert SameListing(world, other);
      assert stored != complete;
    } else {
      forall other: World, parse: Parse, stored: Result, complete: Result |
        && SameListing(world, other)
        && KeysDetermine(Collected(other, version, arch, extensions, NONE))
        && Builds(other, parse, root, version, arch, extensions, faults, stored)
        && Builds(other, parse, root, version, arch, extensions, NONE, complete)
        ensures stored == complete
      {
        assert !Missed(other, version, extensions, faults);
        MissesIff(other, version, arch, extensions, faults);
        SameImagesSameResult(other, parse, root, version, arch, extensions, faults, stored, complete);
      }
    }
  }

  lemma SameImagesSameResult(world: World, parse: Parse, root: string -> string, version: string, arch: string,
                             extensions: seq<string>, faults: Faults, stored: Result, complete: Result)
    requires !faults.talos
    requires Images(world, version, arch, extensions, faults) == Images(world, version, arch, extensions, NONE)
    requires KeysDetermine(Collected(world, version, arch, extensions, NONE))
    requires Builds(world, parse, root, version, arch, extensions, faults, stored)
    requires Builds(world, parse, root, version, arch, extensions, NONE, complete)
    ensures stored == complete
  {
    hide Images, Extracted, KeysDetermine, SortedPermutation, MergeFiles, Filed;
    OneOrderIff(Collected(world, version, arch, extensions, NONE));
  }

  const GVISOR := "siderolabs/gvisor"

  /** Registries in which one extension is available. */
  function OneExtension(): World { World((v, a) => [], v => [ExtensionRef(GVISOR, "sha256:0")], (a, r) => []) }

  /** One failed extraction, or a failed listing: the document that is stored, and that every schematic with that list
  is served from then on, lacks the package of the extension. */
  lemma FailedExtractionExample(root: string -> string, faults: Faults, stored: Result, complete: Result)
    requires faults == Faults(false, false, {0}) || faults == Faults(false, true, {})
    requires Builds(OneFileEach(OneExtension()), OnePackage(), root, "v1.11.0", "amd64", [GVISOR], faults, stored)
    requires Builds(OneFileEach(OneExtension()), OnePackage(), root, "v1.11.0", "amd64", [GVISOR], NONE, complete)
    ensures stored.Built? && |stored.doc.packages| == 1
    ensures complete.Built? && |complete.doc.packages| == 2
  {
    OneFileEachBuilds(OneExtension(), root, "v1.11.0", "amd64", [GVISOR], faults, stored);
    OneFileEachBuilds(OneExtension(), root, "v1.11.0", "amd64", [GVISOR], NONE, complete);
    hide Images, Builds, OneExtension;
    GvisorImage("v1.11.0", "amd64", faults);
    GvisorImage("v1.11.0", "amd64", NONE);
  }

  lemma GvisorImage(version: string, arch: string, faults: Faults)
    requires faults == NONE || faults.extractions == {0} || faults.listing
    ensures |Images(OneExtension(), version, arch, [GVISOR], faults)| == if faults == NONE then 1 else 0
  {
    var available := OneExtension().available(version);
    hide AfterLastSlash, ExtensionNameAlias;
    assert [GVISOR][..0] == [];
    assert Resolve(available, GVISOR) == Some(available[0]);
    ImagesMissIff(available, arch, [GVISOR], faults.extractions);
  }

  // ---------------------------------------------------------------- names that are not separate

  const VMTOOLSD := "siderolabs/talos-vmtoolsd"
  const GUEST_AGENT := "siderolabs/vmtoolsd-guest-agent"

  /** A former name that is still accepted is filed under a source that Talos's own begins: what the two documents call
  their elements can then be the same in the merged one. */
  lemma FormerNameIsNotSeparate(created: string, root: string, available: seq<ExtensionRef>, arch: string)
    requires FindExtension(available, GUEST_AGENT).Some?
    ensures ImageOf(available, arch, VMTOOLSD).Some?
    ensures var names := ["talos", ImageOf(available, arch, VMTOOLSD).value.source];
      && !Separate(names)
      && exists sources :: Named(names, sources) && !Distinct(IDs(MergeAll(Root(created, root), sources)))
  {
    VmtoolsdSource(available, arch);
    var source := "talos-vmtoolsd" + "-" + arch;
    hide ImageOf, Separate, Named, Distinct, IDs;
    assert ("talos-vmtoolsd" + "-" + arch + "-")[..6] == "talos" + "-";
    NotSeparate(["talos", source]);
    UniqueForAllContentsIff(created, root, ["talos", source]);
  }

  lemma VmtoolsdSource(available: seq<ExtensionRef>, arch: string)
    requires FindExtension(available, GUEST_AGENT).Some?
    ensures ImageOf(available, arch, VMTOOLSD).Some?
    ensures ImageOf(available, arch, VMTOOLSD).value.source == "talos-vmtoolsd" + "-" + arch
  {
    assert ExtensionNameAlias(VMTOOLSD) == Some(GUEST_AGENT);
    hide FindExtension, ExtensionNameAlias, AfterLastSlash;
    VmtoolsdShort();
  }

  lemma VmtoolsdShort()
    ensures AfterLastSlash(VMTOOLSD) == "talos-vmtoolsd"
  {
    assert VMTOOLSD[10] == '/' && VMTOOLSD[11..] == "talos-vmtoolsd";
    BehindSlash(VMTOOLSD, 10);
  }

  lemma BehindSlash(s: string, k: nat)
    requires k < |s| && s[k] == '/' && '/' !in s[k + 1..]
    ensures AfterLastSlash(s) == s[k + 1..]
  {
    assert s == s[..k + 1] + s[k + 1..];
    assert AfterLastSlash(s[..k + 1]) == "";
    AfterLastSlashAppend(s[..k + 1], s[k + 1..]);
  }

  lemma NotSeparate(names: seq<string>)
    requires |names| == 2 && names[0] + "-" <= names[1] + "-"
    ensures !Separate(names)
  {
    assert !PrefixFree(names[0], names[1]);
  }

  // ---------------------------------------------------------------- the store

  datatype Request = Request(extensions: seq<string>, version: string, arch: string)

  /** A build that was finished: for whom, what failed in it, and the document it stored. */
  datatype Put = Put(request: Request, faults: Faults, doc: Document)

  function KeyOf(r: Request): string { Preimage(r.extensions, r.version, r.arch) }

  /** What is stored after these builds, the last one for a key being the one that stays. */
  function Stored(puts: seq<Put>): map<string, Document> {
    if puts == [] then map[]
    else Stored(puts[..|puts| - 1])[KeyOf(puts[|puts| - 1].request) := puts[|puts| - 1].doc]
  }

  /** The builds of a history stored what they yielded. */
  ghost predicate History(world: World, parse: Parse, root: string -> string, puts: seq<Put>) {
    forall i :: 0 <= i < |puts| ==>
      && !puts[i].faults.talos
      && (forall e :: e in puts[i].request.extensions ==> NulFree(e))
      && NulFree(puts[i].request.version) && NulFree(puts[i].request.arch)
      && var r := puts[i].request;
         Builds(world, parse, root, r.version, r.arch, r.extensions, puts[i].faults, Built(puts[i].doc))
  }

  lemma {:induction false} StoredByLast(puts: seq<Put>, key: string) returns (i: nat)
    requires key in Stored(puts)
    ensures i < |puts| && KeyOf(puts[i].request) == key && Stored(puts)[key] == puts[i].doc
  {
    hide KeyOf;
    var n := |puts| - 1;
    if KeyOf(puts[n].request) == key {
      i := n;
    } else {
      i := StoredByLast(puts[..n], key);
    }
  }

  /** Over every history: what a request finds in the store is what its own build without faults would yield, if no
  build for its key missed an extension. */
  lemma StoreServesEachOnes(world: World, parse: Parse, root: string -> string, puts: seq<Put>, r: Request, own: Result)
    requires History(world, parse, root, puts) && KeyOf(r) in Stored(puts)
    requires (forall e :: e in r.extensions ==> NulFree(e)) && NulFree(r.version) && NulFree(r.arch)
    requires KeysDetermine(Collected(world, r.version, r.arch, r.extensions, NONE))
    requires Builds(world, parse, root, r.version, r.arch, r.extensions, NONE, own)
    requires forall i :: 0 <= i < |puts| && KeyOf(puts[i].request) == KeyOf(r) ==>
      !Missed(world, puts[i].request.version, puts[i].request.extensions, puts[i].faults)
    ensures own == Built(Stored(puts)[KeyOf(r)])
  {
    hide Builds, KeysDetermine, Collected, Images, Preimage, Missed;
    var i := StoredByLast(puts, KeyOf(r));
    var q, faults := puts[i].request, puts[i].faults;
    PreimagesAgreeIff(r.extensions, r.version, r.arch, q.extensions, q.version, q.arch);
    MissesIff(world, q.version, q.arch, q.extensions, faults);
    PermutedImages(world, r.version, r.arch, r.extensions, q.extensions);
    SharedBundleIsEachOnes(world, parse, root, r.extensions, r.version, r.arch, NONE, own,
                           q.extensions, q.version, q.arch, faults, Built(puts[i].doc));
  }

  lemma PermutedImages(world: World, version: string, arch: string, a: seq<string>, b: seq<string>)
    requires multiset(a) == multiset(b)
    ensures multiset(Images(world, version, arch, a, NONE)) == multiset(Images(world, version, arch, b, NONE))
  {
    ImagesPermute(world.available(version), arch, a, b);
  }
}
