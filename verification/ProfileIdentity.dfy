/** What the identity of a profile consists of (internal/profile/hash.go): what is left of each of its inputs, and the
markers of the errata. */
module ProfileIdentity {
  import opened Strings
  import opened ContainerAssets
  import opened PathParser
  import opened ProfileHash

  predicate Slashes(s: string) { forall i :: 0 <= i < |s| ==> s[i] == '/' }

  /** The base of a path is its last element, whatever slashes follow it. */
  lemma {:induction false} BaseIsLastElement(directory: string, name: string, slashes: string)
    requires name != "" && '/' !in name && Slashes(slashes)
    requires directory == "" || directory[|directory| - 1] == '/'
    ensures Base(directory + name + slashes) == name
  {
    var path := directory + name;
    assert path[|path| - 1] == name[|name| - 1] && name[|name| - 1] in name;
    SlashesTrimmed(path, slashes);
    AfterLastSlashAppend(directory, name);
  }

  lemma {:induction false} SlashesTrimmed(path: string, slashes: string)
    requires Slashes(slashes)
    ensures TrimSlashes(path + slashes) == TrimSlashes(path)
  {
    var s := path + slashes;
    if slashes == "" {
      assert s == path;
    } else {
      assert s[..|s| - 1] == path + slashes[..|slashes| - 1];
      SlashesTrimmed(path, slashes[..|slashes| - 1]);
    }
  }

  /** A path without elements is the root, or, if it is empty, the current directory. */
  lemma BaseOfSlashes(slashes: string)
    requires Slashes(slashes)
    ensures Base(slashes) == if slashes == "" then "." else "/"
  {
    SlashesTrimmed("", slashes);
    assert "" + slashes == slashes;
  }

  /** Of an image, the last element of its reference and its file names; how it is fetched does not matter. */
  predicate IsCleanAsset(a: ContainerAsset, c: ContainerAsset) {
    IsLastElement(c.imageRef, a.imageRef) && c.ociPath == a.ociPath && c.tarballPath == a.tarballPath
        && !c.forceInsecure
  }

  /** The identity of a profile whose inputs were unpacked into a directory has the names of its files, the last
  elements of its references, and the secure boot assets but for the paths of the three keys. Everything else is kept,
  overlays as they were unpacked. */
  lemma IdentityIs(directory: string, p: ProfileValue)
    requires Named(p)
    ensures var c := Cleaned(Unpacked(directory, p));
      && IsCleanAsset(p.baseInstaller, c.baseInstaller)
      && |c.systemExtensions| == |p.systemExtensions|
      && (forall i :: 0 <= i < |p.systemExtensions| ==> IsCleanAsset(p.systemExtensions[i], c.systemExtensions[i]))
      && c.kernel == p.kernel && c.initramfs == p.initramfs && c.sdBoot == p.sdBoot && c.sdStub == p.sdStub
      && (c.secureBoot.Some? <==> p.secureBoot.Some?)
      && (p.secureBoot.Some? ==> c.secureBoot.value == Keys("", "", "", p.secureBoot.value.other))
      && c.overlay == Unpacked(directory, p).overlay && c.rest == p.rest
  {
    hide CleanPath, Place, PlaceAsset, CleanContainerAsset, IsLastElement, AfterLastSlash;
    CleanAsset(directory, p.baseInstaller);
    forall i | 0 <= i < |p.systemExtensions|
      ensures IsCleanAsset(p.systemExtensions[i], Cleaned(Unpacked(directory, p)).systemExtensions[i])
    {
      assert p.systemExtensions[i] in p.systemExtensions;
      CleanAsset(directory, p.systemExtensions[i]);
    }
    PlacesClean(directory, p.kernel);
    PlacesClean(directory, p.initramfs);
    PlacesClean(directory, p.sdBoot);
    PlacesClean(directory, p.sdStub);
  }

  lemma CleanAsset(directory: string, a: ContainerAsset)
    requires NamedAsset(a)
    ensures IsCleanAsset(a, CleanContainerAsset(PlaceAsset(directory, a)))
  {
    AssetsClean(directory, a);
    LastElement(a.imageRef);
    hide CleanContainerAsset, PlaceAsset, IsLastElement, AfterLastSlash;
  }

  // ---------------------------------------------------------------- the errata

  /** A marker, and what it applies to; an empty platform or architecture stands for any. */
  datatype Erratum = Erratum(marker: string, kinds: set<OutputKind>, platform: string, arch: string, overlay: bool,
                             secureBoot: bool)

  const ANY_KIND: set<OutputKind> := {Kernel, Cmdline, Initramfs, ISO, UKI, OutputKind.Installer, OutputKind.Image}

  const ERRATA: seq<Erratum> := [
    Erratum("installer fix #8107", {OutputKind.Installer}, "", "", false, false),
    Erratum("overlay installer layout fix", {OutputKind.Installer}, "", "", true, false),
    Erratum("secureboot iso gen fix #9565", {ISO}, "", "", false, true),
    Erratum("vmware build fix #164", ANY_KIND, "vmware", "", false, false),
    Erratum("installer tarball fix #9772", {OutputKind.Installer}, "", "", false, false),
    Erratum("installer tarball fix #10278", {OutputKind.Installer}, "", "", false, false),
    Erratum("overlay profile fix #11093", ANY_KIND, "", "", true, false),
    Erratum("vmware arm64 kernel args fix #11735", ANY_KIND, "vmware", "arm64", false, false),
    Erratum("overlay extra kernel args fix #376", {UKI, OutputKind.Installer}, "", "", true, false),
    Erratum("overlay efi boot assets fix #14235", ANY_KIND, "", "", true, false)]

  predicate Applies(e: Erratum, r: Rest, overlay: bool) {
    && r.kind in e.kinds && (e.platform == "" || r.platform == e.platform) && (e.arch == "" || r.arch == e.arch)
    && (e.overlay ==> overlay) && (e.secureBoot ==> r.secureBootEnabled)
  }

  function Marker(k: nat, r: Rest, overlay: bool): string
    requires k < |ERRATA|
  {
    if Applies(ERRATA[k], r, overlay) then ERRATA[k].marker else ""
  }

  /** The markers of the first `k` errata that apply. */
  function Markers(k: nat, r: Rest, overlay: bool): string
    requires k <= |ERRATA|
  {
    if k == 0 then "" else Markers(k - 1, r, overlay) + Marker(k - 1, r, overlay)
  }

  /** What is hashed after a profile are the markers of all errata that apply to it, in order. */
  lemma ErrataAre(r: Rest, overlay: bool)
    ensures Errata(r, overlay) == Markers(10, r, overlay)
  {
    MarkersOfFive(r, overlay);
    MarkersOfTen(r, overlay);
    hide Markers;
    var vmware, installer := r.platform == "vmware", r.kind.Installer?;
    assert Errata(r, overlay) == Markers(5, r, overlay)
        + (if installer then "installer tarball fix #10278" else "")
        + (if overlay then "overlay profile fix #11093" else "")
        + (if vmware && r.arch == "arm64" then "vmware arm64 kernel args fix #11735" else "")
        + (if overlay && (r.kind.UKI? || installer) then "overlay extra kernel args fix #376" else "")
        + (if overlay then "overlay efi boot assets fix #14235" else "");
  }

  lemma MarkersOfFive(r: Rest, overlay: bool)
    ensures Markers(5, r, overlay)
         == (if r.kind.Installer? then "installer fix #8107" else "")
            + (if r.kind.Installer? && overlay then "overlay installer layout fix" else "")
            + (if r.kind.ISO? && r.secureBootEnabled then "secureboot iso gen fix #9565" else "")
            + (if r.platform == "vmware" then "vmware build fix #164" else "")
            + (if r.kind.Installer? then "installer tarball fix #9772" else "")
  {
    hide Markers;
    MarkersNext(0, r, overlay);
    MarkersNext(1, r, overlay);
    MarkersNext(2, r, overlay);
    MarkersNext(3, r, overlay);
    MarkersNext(4, r, overlay);
    assert Markers(1, r, overlay) == Marker(0, r, overlay);
  }

  lemma MarkersOfTen(r: Rest, overlay: bool)
    ensures Markers(10, r, overlay) == Markers(5, r, overlay)
        + (if r.kind.Installer? then "installer tarball fix #10278" else "")
        + (if overlay then "overlay profile fix #11093" else "")
        + (if r.platform == "vmware" && r.arch == "arm64" then "vmware arm64 kernel args fix #11735" else "")
        + (if overlay && (r.kind.UKI? || r.kind.Installer?) then "overlay extra kernel args fix #376" else "")
        + (if overlay then "overlay efi boot assets fix #14235" else "")
  {
    hide Markers;
    MarkersNext(5, r, overlay);
    MarkersNext(6, r, overlay);
    MarkersNext(7, r, overlay);
    MarkersNext(8, r, overlay);
    MarkersNext(9, r, overlay);
  }

  lemma MarkersNext(k: nat, r: Rest, overlay: bool)
    requires k < |ERRATA|
    ensures Markers(k + 1, r, overlay) == Markers(k, r, overlay) + Marker(k, r, overlay)
    ensures k == 0 ==> Markers(k, r, overlay) == ""
  {
  }
}
