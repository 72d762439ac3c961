/** The cache identity of a profile (internal/profile/hash.go): what is hashed is a cleaned copy, so that it does not
depend on where the inputs were unpacked. SHA-256 and the YAML encoding are left to parameters. */
module ProfileHash {
  import opened Strings
  import opened ContainerAssets
  import opened PathParser

  /** What else a profile says; `other` is all that cleaning does not touch and the errata do not look at. */
  datatype Rest = Rest(kind: OutputKind, platform: string, arch: string, secureBootEnabled: bool, other: string)

  /** An overlay's image for the factory's own architecture, and the one for the profile's. */
  datatype OverlayImages = OverlayImages(native: ContainerAsset, target: ContainerAsset)

  datatype Keys = Keys(keyExchange: string, signature: string, platform: string, other: string)

  /** A profile as a value. */
  datatype ProfileValue = ProfileValue(
    baseInstaller: ContainerAsset, systemExtensions: seq<ContainerAsset>, secureBoot: Option<Keys>,
    kernel: string, initramfs: string, sdBoot: string, sdStub: string, overlay: Option<OverlayImages>, rest: Rest)

  // ---------------------------------------------------------------- cleaning, as a function

  function TrimSlashes(path: string): (r: string)
    ensures r == "" || r[|r| - 1] != '/'
  {
    if path == "" || path[|path| - 1] != '/' then path else TrimSlashes(path[..|path| - 1])
  }

  /** `filepath.Base`. */
  function Base(path: string): (r: string)
    ensures r != ""
  {
    if path == "" then "."
    else
      var trimmed := TrimSlashes(path);
      if trimmed == "" then "/"
      else
        LastElementNotEmpty(trimmed);
        AfterLastSlash(trimmed)
  }

  lemma LastElementNotEmpty(s: string)
    requires s != "" && s[|s| - 1] != '/'
    ensures AfterLastSlash(s) != ""
  {
  }

  lemma {:induction false} NoSlashNoCut(s: string)
    requires '/' !in s
    ensures AfterLastSlash(s) == s
  {
    AfterLastSlashAppend("", s);
    assert "" + s == s;
  }

  lemma BaseIdempotent(path: string)
    ensures Base(Base(path)) == Base(path)
  {
    var b := Base(path);
    if b == "/" {
      assert "/"[..0] == "";
      assert TrimSlashes("/") == TrimSlashes("");
    } else if b != "." {
      assert '/' !in b;
      assert b[|b| - 1] in b;
      assert TrimSlashes(b) == b;
      NoSlashNoCut(b);
    } else {
      NoSlashNoCut(".");
    }
  }

  function CleanPath(path: string): string { if path == "" then "" else Base(path) }

  function CleanContainerAsset(a: ContainerAsset): ContainerAsset {
    ContainerAsset(AfterLastSlash(a.imageRef), CleanPath(a.ociPath), CleanPath(a.tarballPath), false)
  }

  function CleanAll(assets: seq<ContainerAsset>): seq<ContainerAsset> {
    seq(|assets|, i requires 0 <= i < |assets| => CleanContainerAsset(assets[i]))
  }

  function CleanKeys(keys: Option<Keys>): Option<Keys> {
    match keys
    case None => None
    case Some(k) => Some(k.(keyExchange := "", signature := "", platform := ""))
  }

  function Cleaned(p: ProfileValue): ProfileValue {
    p.(baseInstaller := CleanContainerAsset(p.baseInstaller),
       systemExtensions := CleanAll(p.systemExtensions),
       secureBoot := CleanKeys(p.secureBoot),
       kernel := CleanPath(p.kernel), initramfs := CleanPath(p.initramfs),
       sdBoot := CleanPath(p.sdBoot), sdStub := CleanPath(p.sdStub))
  }

  lemma CleanAssetIdempotent(a: ContainerAsset)
    ensures CleanContainerAsset(CleanContainerAsset(a)) == CleanContainerAsset(a)
  {
    hide Base, AfterLastSlash;
    BaseIdempotent(a.ociPath);
    BaseIdempotent(a.tarballPath);
    NoSlashNoCut(AfterLastSlash(a.imageRef));
  }

  /** Cleaning twice is cleaning once. */
  lemma CleanIdempotent(p: ProfileValue)
    ensures Cleaned(Cleaned(p)) == Cleaned(p)
  {
    hide Base, CleanContainerAsset;
    CleanAssetIdempotent(p.baseInstaller);
    forall i | 0 <= i < |p.systemExtensions|
      ensures CleanContainerAsset(CleanContainerAsset(p.systemExtensions[i]))
          == CleanContainerAsset(p.systemExtensions[i])
    {
      CleanAssetIdempotent(p.systemExtensions[i]);
    }
    BaseIdempotent(p.kernel);
    BaseIdempotent(p.initramfs);
    BaseIdempotent(p.sdBoot);
    BaseIdempotent(p.sdStub);
  }

  /** The directory something was unpacked into does not matter, and the file name does. */
  lemma PathsCleanByName(directory: string, name: string)
    requires name != "" && '/' !in name
    ensures CleanPath(directory + "/" + name) == name
  {
    var path := directory + "/" + name;
    assert path[|path| - 1] == name[|name| - 1];
    assert name[|name| - 1] in name;
    assert TrimSlashes(path) == path;
    assert path == (directory + "/") + name;
    AfterLastSlashAppend(directory + "/", name);
    assert (directory + "/")[|directory + "/"| - 1] == '/';
  }

  // ---------------------------------------------------------------- where the inputs were unpacked

  /** The path of a named input in a directory. */
  function Place(directory: string, name: string): string { if name == "" then "" else directory + "/" + name }

  function PlaceAsset(directory: string, a: ContainerAsset): ContainerAsset {
    a.(ociPath := Place(directory, a.ociPath), tarballPath := Place(directory, a.tarballPath))
  }

  /** A profile of inputs known by name, with all of them unpacked into a directory. */
  function Unpacked(directory: string, p: ProfileValue): ProfileValue {
    p.(baseInstaller := PlaceAsset(directory, p.baseInstaller),
       systemExtensions := seq(|p.systemExtensions|, i requires 0 <= i < |p.systemExtensions| =>
                                 PlaceAsset(directory, p.systemExtensions[i])),
       kernel := Place(directory, p.kernel), initramfs := Place(directory, p.initramfs),
       sdBoot := Place(directory, p.sdBoot), sdStub := Place(directory, p.sdStub),
       overlay := match p.overlay
                  case None => None
                  case Some(o) => Some(OverlayImages(PlaceAsset(directory, o.native), PlaceAsset(directory, o.target))))
  }

  predicate NamedAsset(a: ContainerAsset) { '/' !in a.ociPath && '/' !in a.tarballPath }

  predicate Named(p: ProfileValue) {
    && NamedAsset(p.baseInstaller) && (forall a :: a in p.systemExtensions ==> NamedAsset(a))
    && '/' !in p.kernel && '/' !in p.initramfs && '/' !in p.sdBoot && '/' !in p.sdStub
  }

  /** Some overlay image has a path. */
  predicate HasOverlayPath(p: ProfileValue) {
    p.overlay.Some? &&
    (p.overlay.value.native.ociPath != "" || p.overlay.value.native.tarballPath != ""
     || p.overlay.value.target.ociPath != "" || p.overlay.value.target.tarballPath != "")
  }

  lemma PlacesClean(directory: string, name: string)
    requires '/' !in name
    ensures CleanPath(Place(directory, name)) == name
  {
    if name != "" {
      PathsCleanByName(directory, name);
    }
  }

  lemma AssetsClean(directory: string, a: ContainerAsset)
    requires NamedAsset(a)
    ensures CleanContainerAsset(PlaceAsset(directory, a))
         == ContainerAsset(AfterLastSlash(a.imageRef), a.ociPath, a.tarballPath, false)
  {
    hide CleanPath, AfterLastSlash, Place;
    PlacesClean(directory, a.ociPath);
    PlacesClean(directory, a.tarballPath);
  }

  lemma PlacesDiffer(d: string, e: string, name: string)
    ensures Place(d, name) == Place(e, name) <==> name == "" || d == e
  {
    if name != "" && d + "/" + name == e + "/" + name {
      assert |d| == |e|;
      assert d == (d + "/" + name)[..|d|] && e == (e + "/" + name)[..|e|];
    }
  }

  /** Cleaning makes a profile independent of the directory its inputs were unpacked into if and only if no overlay
  image has a path: those paths are kept whole. */
  lemma DirectoryIgnoredIff(p: ProfileValue, d: string, e: string)
    requires Named(p)
    ensures Cleaned(Unpacked(d, p)) == Cleaned(Unpacked(e, p)) <==> d == e || !HasOverlayPath(p)
  {
    InputsIgnoreDirectory(p, d, e);
    OverlayKeepsDirectory(p, d, e);
    hide Unpacked, Cleaned, Named, HasOverlayPath;
    var x, y := Cleaned(Unpacked(d, p)), Cleaned(Unpacked(e, p));
    assert x == y.(overlay := x.overlay);
    assert y == y.(overlay := y.overlay);
  }

  lemma InputsIgnoreDirectory(p: ProfileValue, d: string, e: string)
    requires Named(p)
    ensures var x, y := Cleaned(Unpacked(d, p)), Cleaned(Unpacked(e, p)); x == y.(overlay := x.overlay)
  {
    hide CleanPath, CleanContainerAsset, PlaceAsset, Place, NamedAsset;
    AssetsClean(d, p.baseInstaller);
    AssetsClean(e, p.baseInstaller);
    var x, y := Cleaned(Unpacked(d, p)), Cleaned(Unpacked(e, p));
    forall i | 0 <= i < |p.systemExtensions| ensures x.systemExtensions[i] == y.systemExtensions[i] {
      assert p.systemExtensions[i] in p.systemExtensions;
      AssetsClean(d, p.systemExtensions[i]);
      AssetsClean(e, p.systemExtensions[i]);
    }
    assert x.systemExtensions == y.systemExtensions;
    PlacesClean(d, p.kernel);
    PlacesClean(e, p.kernel);
    PlacesClean(d, p.initramfs);
    PlacesClean(e, p.initramfs);
    PlacesClean(d, p.sdBoot);
    PlacesClean(e, p.sdBoot);
    PlacesClean(d, p.sdStub);
    PlacesClean(e, p.sdStub);
  }

  lemma OverlayKeepsDirectory(p: ProfileValue, d: string, e: string)
    ensures Cleaned(Unpacked(d, p)).overlay == Cleaned(Unpacked(e, p)).overlay <==> d == e || !HasOverlayPath(p)
  {
    hide Place, CleanPath, CleanContainerAsset;
    if p.overlay.Some? {
      var o := p.overlay.value;
      PlacesDiffer(d, e, o.native.ociPath);
      PlacesDiffer(d, e, o.native.tarballPath);
      PlacesDiffer(d, e, o.target.ociPath);
      PlacesDiffer(d, e, o.target.tarballPath);
    }
  }

  /** A profile whose identity depends on the directory its overlay images were unpacked into. */
  lemma OverlayPathExample(p: ProfileValue, native: ContainerAsset, target: ContainerAsset)
    requires Named(p) && p.overlay == Some(OverlayImages(native, target))
    requires native == ContainerAsset("", "amd64-rpi.tar", "", false)
      && target == ContainerAsset("", "arm64-rpi.tar", "", false)
    ensures Cleaned(Unpacked("/tmp/1", p)) != Cleaned(Unpacked("/tmp/2", p))
  {
    DirectoryIgnoredIff(p, "/tmp/1", "/tmp/2");
    hide Unpacked, Cleaned, Named;
    assert "/tmp/1"[5] != "/tmp/2"[5];
  }

  /** A digest bound into an image reference is still bound into the cleaned one. */
  lemma DigestSurvives(p: ProfileValue, repository: string, digest: string)
    requires p.baseInstaller.imageRef == repository + "@" + digest && '/' !in digest
    ensures Cleaned(p).baseInstaller.imageRef == AfterLastSlash(repository) + "@" + digest
  {
    AfterLastSlashAppend(repository, "@" + digest);
    assert repository + "@" + digest == repository + ("@" + digest);
    assert AfterLastSlash(repository) + "@" + digest == AfterLastSlash(repository) + ("@" + digest);
  }

  /** So profiles whose base installers differ in their digests differ after cleaning. */
  lemma DigestsTellApart(p: ProfileValue, q: ProfileValue, r: string, s: string, d: string, e: string)
    requires p.baseInstaller.imageRef == r + "@" + d && q.baseInstaller.imageRef == s + "@" + e
    requires '/' !in d && '/' !in e && '@' !in d && '@' !in e && d != e
    ensures Cleaned(p) != Cleaned(q)
  {
    DigestSurvives(p, r, d);
    DigestSurvives(q, s, e);
    hide AfterLastSlash, CleanPath;
    AfterAt(AfterLastSlash(r), d, AfterLastSlash(s), e);
  }

  lemma AfterAt(x: string, d: string, y: string, e: string)
    requires '@' !in d && '@' !in e && d != e
    ensures x + "@" + d != y + "@" + e
  {
    var s, t := x + "@" + d, y + "@" + e;
    assert s[|x|] == '@' && t[|y|] == '@';
    assert forall i :: |x| < i < |s| ==> s[i] == d[i - |x| - 1];
    assert forall i :: |y| < i < |t| ==> t[i] == e[i - |y| - 1];
    assert d == s[|x| + 1..] && e == t[|y| + 1..];
  }

  // ---------------------------------------------------------------- cleaning and hashing, as they run

  class SecureBootAssets {
    var keyExchange: string
    var signature: string
    var platform: string
    const other: string

    constructor (keys: Keys)
      ensures Value() == keys
    {
      keyExchange, signature, platform, other := keys.keyExchange, keys.signature, keys.platform, keys.other;
    }

    function Value(): Keys
      reads this
    {
      Keys(keyExchange, signature, platform, other)
    }
  }

  class Profile {
    var baseInstaller: ContainerAsset
    const systemExtensions: array<ContainerAsset>
    const secureBoot: SecureBootAssets?
    var kernel: string
    var initramfs: string
    var sdBoot: string
    var sdStub: string
    const overlay: Option<OverlayImages>
    const rest: Rest

    /** Everything that cleaning may write to. */
    ghost function Repr(): set<object> {
      {this, systemExtensions} + if secureBoot == null then {} else {secureBoot}
    }

    function Value(): ProfileValue
      reads Repr()
    {
      ProfileValue(baseInstaller, systemExtensions[..], if secureBoot == null then None else Some(secureBoot.Value()),
                   kernel, initramfs, sdBoot, sdStub, overlay, rest)
    }

    constructor (value: ProfileValue)
      ensures Value() == value && fresh(Repr())
    {
      baseInstaller, kernel, initramfs := value.baseInstaller, value.kernel, value.initramfs;
      sdBoot, sdStub, overlay, rest := value.sdBoot, value.sdStub, value.overlay, value.rest;
      var extensions := new ContainerAsset[|value.systemExtensions|](i requires 0 <= i < |value.systemExtensions| =>
                                                                      value.systemExtensions[i]);
      systemExtensions := extensions;
      if value.secureBoot.Some? {
        var assets := new SecureBootAssets(value.secureBoot.value);
        secureBoot := assets;
      } else {
        secureBoot := null;
      }
      new;
      assert systemExtensions[..] == value.systemExtensions;
    }

    /** A copy that shares nothing with this profile. */
    method DeepCopy() returns (copy: Profile)
      ensures fresh(copy) && fresh(copy.Repr()) && copy.Value() == Value()
    {
      copy := new Profile(Value());
    }

    /** Cleans the profile in place, through its extensions and its secure boot assets too. */
    method Clean()
      modifies Repr()
      ensures Value() == Cleaned(old(Value()))
    {
      hide Base, CleanContainerAsset;
      baseInstaller := CleanContainerAsset(baseInstaller);
      for i := 0 to systemExtensions.Length
        invariant forall j :: 0 <= j < i ==> systemExtensions[j] == CleanContainerAsset(old(systemExtensions[j]))
        invariant forall j :: i <= j < systemExtensions.Length ==> systemExtensions[j] == old(systemExtensions[j])
        invariant baseInstaller == CleanContainerAsset(old(baseInstaller)) && kernel == old(kernel)
          && initramfs == old(initramfs)
        invariant sdBoot == old(sdBoot) && sdStub == old(sdStub)
        invariant secureBoot != null ==> secureBoot.Value() == old(secureBoot.Value())
      {
        systemExtensions[i] := CleanContainerAsset(systemExtensions[i]);
      }
      assert systemExtensions[..] == CleanAll(old(systemExtensions[..]));
      if secureBoot != null {
        secureBoot.keyExchange := "";
        secureBoot.signature := "";
        secureBoot.platform := "";
      }
      kernel := CleanPath(kernel);
      initramfs := CleanPath(initramfs);
      sdBoot := CleanPath(sdBoot);
      sdStub := CleanPath(sdStub);
    }
  }

  /** The markers that force assets built by a faulty version to be rebuilt. */
  function Errata(r: Rest, overlay: bool): string {
    (if r.kind.Installer? then "installer fix #8107" else "")
    + (if r.kind.Installer? && overlay then "overlay installer layout fix" else "")
    + (if r.kind.ISO? && r.secureBootEnabled then "secureboot iso gen fix #9565" else "")
    + (if r.platform == "vmware" then "vmware build fix #164" else "")
    + (if r.kind.Installer? then "installer tarball fix #9772" else "")
    + (if r.kind.Installer? then "installer tarball fix #10278" else "")
    + (if overlay then "overlay profile fix #11093" else "")
    + (if r.platform == "vmware" && r.arch == "arm64" then "vmware arm64 kernel args fix #11735" else "")
    + (if overlay && (r.kind.UKI? || r.kind.Installer?) then "overlay extra kernel args fix #376" else "")
    + (if overlay then "overlay efi boot assets fix #14235" else "")
  }

  /** What is hashed is the encoding of the cleaned profile and the markers; the profile itself is left as it is, and so
  is everything it refers to. */
  method Hash(p: Profile, encode: ProfileValue -> Option<string>) returns (preimage: Option<string>)
    ensures p.Value() == old(p.Value())
    ensures preimage == match encode(Cleaned(p.Value()))
                        case None => None
                        case Some(text) => Some(text + Errata(p.rest, p.overlay.Some?))
  {
    hide Cleaned, Errata;
    var copy := p.DeepCopy();
    assert copy.Value().rest == p.rest && copy.Value().overlay == p.overlay;
    copy.Clean();
    CleanedRest(p.Value());
    var encoded := encode(copy.Value());
    if encoded.None? {
      return None;
    }
    preimage := Some(encoded.value + Errata(copy.rest, copy.overlay.Some?));
  }

  lemma CleanedRest(p: ProfileValue)
    ensures Cleaned(p).rest == p.rest && Cleaned(p).overlay == p.overlay
  {
  }
}
