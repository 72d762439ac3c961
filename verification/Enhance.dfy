/** Enhancing an imager profile from a schematic, and recording which images that takes (internal/profile/profile.go).

What Talos versions support, and where images, extensions and overlays come from, are parameters. */
module Enhance {
  import opened Strings
  import opened ContainerAssets
  import opened Extensions
  import opened PathParser

  /** An image as it was resolved: its local layout, and the reference that is bound to a digest. */
  datatype ImageDependency = ImageDependency(ociPath: string, ref: string)

  datatype OverlayRef = OverlayRef(name: string, digest: string)

  const EMPTY_ASSET := ContainerAsset("", "", "", false)

  /** One image that an enhancement consumes. */
  datatype Dependency = Dependency(kind: string, arch: string, image: ImageDependency)

  const BASE_INSTALLER := "base-installer"
  const EXTENSION := "extension"
  const OVERLAY := "overlay"

  // ---------------------------------------------------------------- recording dependencies

  function Key(d: Dependency): string { d.kind + "|" + (d.arch + "|" + d.image.ref) }

  predicate NoBar(s: string) { '|' !in s }

  /** Kinds and architectures contain no bar, so that keys tell apart everything they are made of. */
  lemma KeyInjective(a: Dependency, b: Dependency)
    requires NoBar(a.kind) && NoBar(b.kind) && NoBar(a.arch) && NoBar(b.arch)
    ensures Key(a) == Key(b) <==> a.kind == b.kind && a.arch == b.arch && a.image.ref == b.image.ref
  {
    if Key(a) == Key(b) {
      FirstBar(a.kind, a.arch + "|" + a.image.ref, b.kind, b.arch + "|" + b.image.ref);
      FirstBar(a.arch, a.image.ref, b.arch, b.image.ref);
    }
  }

  lemma FirstBar(a: string, x: string, b: string, y: string)
    requires NoBar(a) && NoBar(b) && a + "|" + x == b + "|" + y
    ensures a == b && x == y
  {
    var s := a + "|" + x;
    assert s[|a|] == '|' && s[|b|] == '|';
    assert forall i :: 0 <= i < |a| ==> s[i] == a[i];
    assert forall i :: 0 <= i < |b| ==> s[i] == b[i];
    assert |a| == |b|;
    assert a == s[..|a|] && x == s[|a| + 1..] && b == s[..|b|] && y == s[|b| + 1..];
  }

  ghost predicate Recorded(deps: seq<Dependency>, d: Dependency) {
    exists i :: 0 <= i < |deps| && Key(deps[i]) == Key(d)
  }

  /** The dependencies recorded for a sequence of consumed images: the first of each key. */
  ghost function Captured(consumed: seq<Dependency>): seq<Dependency> {
    if consumed == [] then [] else CaptureOne(Captured(consumed[..|consumed| - 1]), consumed[|consumed| - 1])
  }

  ghost function CaptureOne(deps: seq<Dependency>, d: Dependency): seq<Dependency> {
    if Recorded(deps, d) then deps else deps + [d]
  }

  ghost predicate CapturesAll(consumed: seq<Dependency>, deps: seq<Dependency>) {
    && (forall d :: d in deps ==> d in consumed)
    && (forall d :: d in consumed ==> Recorded(deps, d))
    && (forall i, j :: 0 <= i < j < |deps| ==> Key(deps[i]) != Key(deps[j]))
  }

  lemma {:induction false} CapturedCapturesAll(consumed: seq<Dependency>)
    ensures CapturesAll(consumed, Captured(consumed))
  {
    hide Key, CapturesAll, CaptureOne;
    if consumed == [] {
      assert CapturesAll(consumed, []) by { NothingCaptured(consumed); }
    } else {
      CapturedCapturesAll(consumed[..|consumed| - 1]);
      CaptureOneMore(consumed[..|consumed| - 1], Captured(consumed[..|consumed| - 1]), consumed[|consumed| - 1]);
      assert consumed == consumed[..|consumed| - 1] + [consumed[|consumed| - 1]];
    }
  }

  lemma NothingCaptured(consumed: seq<Dependency>)
    requires consumed == []
    ensures CapturesAll(consumed, [])
  {
  }

  lemma CaptureOneMore(consumed: seq<Dependency>, deps: seq<Dependency>, d: Dependency)
    requires CapturesAll(consumed, deps)
    ensures CapturesAll(consumed + [d], CaptureOne(deps, d))
  {
    hide Key;
    var more := CaptureOne(deps, d);
    assert more == deps || more == deps + [d];
    assert Recorded(more, d) by {
      if more == deps + [d] { assert Key(more[|deps|]) == Key(d); }
    }
    forall e | e in consumed ensures Recorded(more, e) {
      assert Recorded(deps, e);
      var i :| 0 <= i < |deps| && Key(deps[i]) == Key(e);
      assert more[i] == deps[i];
    }
  }

  /** Every image that was consumed is recorded exactly once with its kind, architecture and reference, and nothing else
  is recorded. */
  lemma CapturedExactlyOnce(consumed: seq<Dependency>)
    requires forall d :: d in consumed ==> NoBar(d.kind) && NoBar(d.arch)
    ensures var deps := Captured(consumed);
      && (forall d :: d in deps ==> d in consumed)
      && (forall d :: d in consumed ==> HasSame(deps, d))
      && (forall i, j :: 0 <= i < j < |deps| ==> !Same(deps[i], deps[j]))
  {
    CapturedCapturesAll(consumed);
    hide Key, NoBar, Captured;
    var deps := Captured(consumed);
    forall d | d in consumed ensures HasSame(deps, d) {
      assert Recorded(deps, d);
      var i :| 0 <= i < |deps| && Key(deps[i]) == Key(d);
      assert deps[i] in consumed;
      KeyInjective(deps[i], d);
      assert Same(deps[i], d);
    }
    forall i, j | 0 <= i < j < |deps| ensures !Same(deps[i], deps[j]) {
      assert deps[i] in consumed && deps[j] in consumed;
      KeyInjective(deps[i], deps[j]);
    }
  }

  predicate Same(a: Dependency, b: Dependency) { a.kind == b.kind && a.arch == b.arch && a.image.ref == b.image.ref }

  ghost predicate HasSame(deps: seq<Dependency>, d: Dependency) { exists i :: 0 <= i < |deps| && Same(deps[i], d) }

  class CapturingProducer {
    var seen: set<string>
    var dependencies: seq<Dependency>
    ghost var consumed: seq<Dependency>

    ghost predicate Valid()
      reads this
    {
      dependencies == Captured(consumed) && SeenAre(seen, dependencies)
    }

    constructor ()
      ensures Valid() && consumed == []
    {
      seen, dependencies, consumed := {}, [], [];
    }

    method Capture(kind: string, arch: string, image: ImageDependency) returns (ociPath: string)
      requires Valid()
      modifies this
      ensures Valid() && consumed == old(consumed) + [Dependency(kind, arch, image)] && ociPath == image.ociPath
    {
      hide Key, SeenAre, Recorded;
      var d := Dependency(kind, arch, image);
      assert (consumed + [d])[..|consumed|] == consumed;
      var key := Key(d);
      SeeNext(seen, dependencies, d);
      if key !in seen {
        seen := seen + {key};
        dependencies := dependencies + [d];
      }
      consumed := consumed + [d];
      ociPath := image.ociPath;
    }
  }

  ghost predicate SeenAre(seen: set<string>, deps: seq<Dependency>) {
    && (forall i :: 0 <= i < |deps| ==> Key(deps[i]) in seen)
    && (forall k :: k in seen ==> exists i :: 0 <= i < |deps| && Key(deps[i]) == k)
  }

  lemma SeeNext(seen: set<string>, deps: seq<Dependency>, d: Dependency)
    requires SeenAre(seen, deps)
    ensures Key(d) in seen <==> Recorded(deps, d)
    ensures Key(d) !in seen ==> SeenAre(seen + {Key(d)}, deps + [d])
  {
    hide Key;
    if Key(d) !in seen {
      var more := deps + [d];
      forall k | k in seen + {Key(d)} ensures exists i :: 0 <= i < |more| && Key(more[i]) == k {
        if k == Key(d) {
          assert Key(more[|deps|]) == k;
        } else {
          var i :| 0 <= i < |deps| && Key(deps[i]) == k;
          assert more[i] == deps[i];
        }
      }
    }
  }

  // ---------------------------------------------------------------- the schematic and the profile

  datatype Schematic = Schematic(
    extensions: seq<string>, overlay: string, overlayOptions: string, kernelArgs: seq<string>, meta: seq<(nat, string)>,
    embedded: string, wellKnownCerts: bool, enrollKeys: string, bootloader: string, sectorSize: nat)

  datatype LoaderOptions = LoaderOptions(bootloader: string, enroll: string)

  /** The part of a profile that overlays may change too. */
  datatype Options = Options(
    embedded: string, kernelArgs: seq<string>, meta: seq<(nat, string)>,
    iso: LoaderOptions, image: LoaderOptions, sectorSize: nat)

  /** What the Talos version supports. */
  datatype Quirks = Quirks(embeddedConfig: bool, overlay: bool, unifiedInstaller: bool, forcesLockdown: bool)

  /** Secure boot assets: whether there is such a service, and what it answers. */
  datatype SecureBootService = NoService | Disabled | Broken | Enabled(assets: string)

  datatype World = World(
    quirks: Quirks,
    secureBoot: SecureBootService,
    goarch: string,                                                      // the architecture the factory runs on
    knownEnroll: string -> bool,
    installer: string -> Option<ImageDependency>,                        // by architecture
    available: Option<seq<ExtensionRef>>,
    extension: (string, ExtensionRef) -> Option<ImageDependency>,
    tarball: Option<string>,                                             // the schematic's own extension
    overlays: Option<seq<OverlayRef>>,
    overlay: (string, OverlayRef) -> Option<ImageDependency>,
    mergeOverlay: (string, OverlayRef, Options) -> Option<Options>)

  datatype Overlay = Overlay(name: string, image: ContainerAsset, options: string)

  /** A schematic that asks for what is not on offer, something that cannot be had, and a panic. */
  datatype Error = Invalid | Failed | Panics

  /** Kinds that take neither extensions nor overlays. */
  predicate Bare(kind: OutputKind) { kind.Cmdline? || kind.Kernel? }

  // ---------------------------------------------------------------- what is consumed

  function ExtensionImages(w: World, arch: string, names: seq<string>): Option<seq<ImageDependency>> {
    if names == [] then Some([])
    else
      match ExtensionImages(w, arch, names[..|names| - 1])
      case None => None
      case Some(images) =>
        match ExtensionImage(w, arch, names[|names| - 1])
        case None => None
        case Some(image) => Some(images + [image])
  }

  function ExtensionImage(w: World, arch: string, name: string): Option<ImageDependency> {
    if w.available.None? then None
    else
      match Resolve(w.available.value, name)
      case None => None
      case Some(ref) => w.extension(arch, ref)
  }

  lemma {:induction false} ExtensionImagesInOrder(w: World, arch: string, names: seq<string>)
    requires ExtensionImages(w, arch, names).Some?
    ensures |ExtensionImages(w, arch, names).value| == |names|
    ensures forall i :: 0 <= i < |names| ==>
      ExtensionImage(w, arch, names[i]) == Some(ExtensionImages(w, arch, names).value[i])
  {
    hide ExtensionImage;
    if names != [] {
      ExtensionImagesInOrder(w, arch, names[..|names| - 1]);
    }
  }

  function FindOverlay(available: seq<OverlayRef>, name: string): Option<OverlayRef> {
    if available == [] then None
    else if available[0].name == name then Some(available[0])
    else FindOverlay(available[1..], name)
  }

  function AsDependencies(kind: string, arch: string, images: seq<ImageDependency>): seq<Dependency> {
    seq(|images|, i requires 0 <= i < |images| => Dependency(kind, arch, images[i]))
  }

  function AsAssets(images: seq<ImageDependency>): seq<ContainerAsset> {
    seq(|images|, i requires 0 <= i < |images| => ContainerAsset("", images[i].ociPath, "", false))
  }

  /** The images an enhancement takes, if all of them are there: the base installer of an installer, the extensions in
  the order of the schematic, and the overlay for the factory's own architecture and for the profile's. */
  function Consumed(w: World, kind: OutputKind, arch: string, schematic: Schematic): Option<seq<Dependency>> {
    match BaseConsumed(w, kind, arch)
    case None => None
    case Some(base) =>
      if Bare(kind) then Some(base)
      else
        match ImagesConsumed(w, arch, schematic)
        case None => None
        case Some(images) => Some(base + images)
  }

  function ImagesConsumed(w: World, arch: string, schematic: Schematic): Option<seq<Dependency>> {
    match ExtensionImages(w, arch, schematic.extensions)
    case None => None
    case Some(images) =>
      match OverlayConsumed(w, arch, schematic.overlay)
      case None => None
      case Some(overlay) => Some(AsDependencies(EXTENSION, arch, images) + overlay)
  }

  function BaseConsumed(w: World, kind: OutputKind, arch: string): Option<seq<Dependency>> {
    if !kind.Installer? then Some([])
    else
      match w.installer(arch)
      case None => None
      case Some(image) => Some([Dependency(BASE_INSTALLER, arch, image)])
  }

  function OverlayConsumed(w: World, arch: string, name: string): Option<seq<Dependency>> {
    if name == "" then Some([])
    else
      match OverlayImages(w, arch, name)
      case None => None
      case Some((native, target)) => Some([Dependency(OVERLAY, w.goarch, native), Dependency(OVERLAY, arch, target)])
  }

  function OverlayImages(w: World, arch: string, name: string): Option<(ImageDependency, ImageDependency)> {
    if w.overlays.None? then None
    else
      match FindOverlay(w.overlays.value, name)
      case None => None
      case Some(ref) =>
        if w.overlay(w.goarch, ref).None? || w.overlay(arch, ref).None? then None
        else Some((w.overlay(w.goarch, ref).value, w.overlay(arch, ref).value))
  }

  lemma KindsHaveNoBar()
    ensures NoBar(BASE_INSTALLER) && NoBar(EXTENSION) && NoBar(OVERLAY)
  {
  }

  lemma ConsumedHaveNoBar(w: World, kind: OutputKind, arch: string, schematic: Schematic)
    requires NoBar(arch) && NoBar(w.goarch) && Consumed(w, kind, arch, schematic).Some?
    ensures forall d :: d in Consumed(w, kind, arch, schematic).value ==> NoBar(d.kind) && NoBar(d.arch)
  {
    KindsHaveNoBar();
    hide NoBar, ExtensionImages, OverlayImages;
  }

  /** What is recorded for an enhancement: each image it consumes once, and nothing else. */
  lemma DependenciesAreConsumed(w: World, kind: OutputKind, arch: string, schematic: Schematic)
    requires NoBar(arch) && NoBar(w.goarch) && Consumed(w, kind, arch, schematic).Some?
    ensures var consumed := Consumed(w, kind, arch, schematic).value;
      var deps := Captured(consumed);
      && (forall d :: d in deps ==> d in consumed)
      && (forall d :: d in consumed ==> HasSame(deps, d))
      && (forall i, j :: 0 <= i < j < |deps| ==> !Same(deps[i], deps[j]))
  {
    hide Consumed, Captured, NoBar, Same, HasSame;
    ConsumedHaveNoBar(w, kind, arch, schematic);
    CapturedExactlyOnce(Consumed(w, kind, arch, schematic).value);
  }

  /** Which kinds take kernel arguments, and which take META. */
  predicate TakesArgs(kind: OutputKind, secureBoot: bool, unified: bool) {
    match kind
    case Initramfs => false
    case Kernel => false
    case Installer => secureBoot || unified
    case UKI => secureBoot || unified
    case _ => true
  }

  predicate TakesMeta(kind: OutputKind) { kind.ISO? || kind.Image? || kind.Cmdline? }

  /** The options after everything the schematic says is put into them. */
  function Customized(o: Options, kind: OutputKind, secureBoot: bool, unified: bool, s: Schematic): Options {
    o.(kernelArgs := o.kernelArgs + if TakesArgs(kind, secureBoot, unified) then s.kernelArgs else [],
       meta := o.meta + if TakesMeta(kind) then s.meta else [],
       iso := if kind.ISO? && s.bootloader != "none" then o.iso.(bootloader := s.bootloader) else o.iso,
       image := if kind.Image? && s.bootloader != "none" then o.image.(bootloader := s.bootloader) else o.image,
       sectorSize := if kind.Image? && s.sectorSize != 0 then s.sectorSize else o.sectorSize)
  }

  // ---------------------------------------------------------------- enhancing, as it runs

  class Profile {
    const kind: OutputKind
    const arch: string
    var secureBoot: bool
    var secureBootAssets: Option<(string, bool)>
    var baseInstaller: ContainerAsset
    var systemExtensions: seq<ContainerAsset>
    var overlay: Option<Overlay>
    var overlayInstaller: ContainerAsset
    var options: Options
    var version: string

    constructor (kind: OutputKind, arch: string, secureBoot: bool, options: Options)
      ensures this.kind == kind && this.arch == arch && this.secureBoot == secureBoot && this.options == options
      ensures baseInstaller == EMPTY_ASSET && systemExtensions == [] && overlay == None
        && overlayInstaller == EMPTY_ASSET
    {
      this.kind, this.arch, this.secureBoot, this.options := kind, arch, secureBoot, options;
      secureBootAssets, overlay, version := None, None, "";
      baseInstaller, systemExtensions, overlayInstaller := EMPTY_ASSET, [], EMPTY_ASSET;
    }

    /** Embeds the machine configuration where the version supports it. */
    method EmbedConfig(w: World, s: Schematic) returns (err: Option<Error>)
      modifies this`options
      ensures err == if !Bare(kind) && s.embedded != "" && !w.quirks.embeddedConfig then Some(Invalid) else None
      ensures err == None ==>
        options == if !Bare(kind) && s.embedded != "" then old(options).(embedded := s.embedded) else old(options)
    {
      if !Bare(kind) && s.embedded != "" {
        if !w.quirks.embeddedConfig {
          return Some(Invalid);
        }
        options := options.(embedded := s.embedded);
      }
      err := None;
    }

    /** Signs unified installers although nobody asked for it, if the factory has the assets; and attaches the assets
    to every profile with secure boot. */
    method PrepareSecureBoot(w: World, s: Schematic) returns (err: Option<Error>)
      modifies this`secureBoot, this`secureBootAssets, this`options
      ensures err == SecureBootError(w, kind, old(secureBoot), s.enrollKeys)
      ensures err == None ==>
        && secureBoot == (old(secureBoot) || (AutoSigns(w, kind) && w.secureBoot.Enabled?))
        && (secureBoot ==> w.secureBoot.Enabled? && secureBootAssets == Some((w.secureBoot.assets, s.wellKnownCerts)))
        && options == (if secureBoot then Enrolled(old(options), kind, s.enrollKeys) else old(options))
    {
      if !secureBoot && AutoSigns(w, kind) {
        if w.secureBoot.Enabled? {
          secureBoot := true;
        } else if !w.secureBoot.Disabled? {
          return Some(Failed);
        }
      }
      if secureBoot {
        if !w.secureBoot.Enabled? {
          return Some(if w.secureBoot.Broken? then Failed else if w.secureBoot.NoService? then Panics else Invalid);
        }
        secureBootAssets := Some((w.secureBoot.assets, s.wellKnownCerts));
        if s.enrollKeys != "" {
          if !w.knownEnroll(s.enrollKeys) {
            return Some(Invalid);
          }
          if kind.ISO? {
            options := options.(iso := options.iso.(enroll := s.enrollKeys));
          } else if kind.Image? {
            options := options.(image := options.image.(enroll := s.enrollKeys));
          }
        }
      }
      err := None;
    }

    /** What comes before any image is taken. */
    method Prepare(w: World, s: Schematic) returns (err: Option<Error>)
      modifies this`secureBoot, this`secureBootAssets, this`options
      ensures err == PrepareError(w, kind, old(secureBoot), s)
      ensures err == None ==>
        && secureBoot == Signed(w, kind, old(secureBoot))
        && options == Prepared(w, kind, old(secureBoot), s, old(options))
        && (s.overlay != "" ==> w.quirks.overlay)
    {
      hide AutoSigns, SecureBootError, Enrolled;
      err := EmbedConfig(w, s);
      if err != None { return; }
      err := PrepareSecureBoot(w, s);
      if err != None { return; }
      if s.overlay != "" && !w.quirks.overlay {
        return Some(Invalid);
      }
    }

    method SetBaseInstaller(w: World, producer: CapturingProducer, fakeRef: string) returns (err: Option<Error>)
      requires producer.Valid()
      modifies this`baseInstaller, producer
      ensures producer.Valid()
      ensures err == if BaseConsumed(w, kind, arch).Some? then None else Some(Failed)
      ensures err == None ==>
        && producer.consumed == old(producer.consumed) + BaseConsumed(w, kind, arch).value
        && baseInstaller
            == (if kind.Installer? then
                old(baseInstaller).(imageRef := fakeRef, ociPath := w.installer(arch).value.ociPath)
                             else old(baseInstaller))
    {
      if kind.Installer? {
        var image := w.installer(arch);
        if image.None? {
          return Some(Failed);
        }
        var path := producer.Capture(BASE_INSTALLER, arch, image.value);
        baseInstaller := baseInstaller.(imageRef := fakeRef, ociPath := path);
      }
      err := None;
    }

    /** Appends the images of the named extensions in order; the first one that is missing ends it. */
    method AddExtensions(w: World, producer: CapturingProducer, names: seq<string>) returns (err: Option<Error>)
      requires producer.Valid()
      modifies this`systemExtensions, producer
      ensures producer.Valid()
      ensures err == ExtensionsError(w, arch, names)
      ensures err == None <==> ExtensionImages(w, arch, names).Some?
      ensures err == None ==>
        var images := ExtensionImages(w, arch, names).value;
        && producer.consumed == old(producer.consumed) + AsDependencies(EXTENSION, arch, images)
        && systemExtensions == old(systemExtensions) + AsAssets(images)
    {
      hide ExtensionImage, ExtensionError, Captured;
      for i := 0 to |names|
        invariant producer.Valid() && ExtensionsError(w, arch, names[..i]) == None
        invariant ExtensionImages(w, arch, names[..i]).Some?
        invariant var images := ExtensionImages(w, arch, names[..i]).value;
          && producer.consumed == old(producer.consumed) + AsDependencies(EXTENSION, arch, images)
          && systemExtensions == old(systemExtensions) + AsAssets(images)
      {
        NextExtension(w, arch, names, i);
        err := AddExtension(w, producer, names[i]);
        if err != None {
          MissingExtension(w, arch, names, i);
          return;
        }
      }
      assert names[..|names|] == names;
      err := None;
    }

    method AddExtension(w: World, producer: CapturingProducer, name: string) returns (err: Option<Error>)
      requires producer.Valid()
      modifies this`systemExtensions, producer
      ensures producer.Valid()
      ensures err == ExtensionError(w, arch, name)
      ensures err == None <==> ExtensionImage(w, arch, name).Some?
      ensures err == None ==>
        && producer.consumed
            == old(producer.consumed) + [Dependency(EXTENSION, arch, ExtensionImage(w, arch, name).value)]
        && systemExtensions
            == old(systemExtensions) + [ContainerAsset("", ExtensionImage(w, arch, name).value.ociPath, "", false)]
    {
      hide Resolve, Captured;
      var ref := if w.available.None? then None else Resolve(w.available.value, name);
      var image := if ref.None? then None else w.extension(arch, ref.value);
      if image.None? {
        return Some(if w.available.Some? && ref.None? then Invalid else Failed);
      }
      var path := producer.Capture(EXTENSION, arch, image.value);
      systemExtensions := systemExtensions + [ContainerAsset("", path, "", false)];
      err := None;
    }

    method AddOverlay(w: World, producer: CapturingProducer, s: Schematic) returns (err: Option<Error>)
      requires producer.Valid()
      modifies this`overlay, this`overlayInstaller, this`options, producer
      ensures producer.Valid()
      ensures err == OverlayError(w, arch, s.overlay, old(options))
      ensures err == None ==> OverlayConsumed(w, arch, s.overlay).Some?
      ensures err == None ==> producer.consumed == old(producer.consumed) + OverlayConsumed(w, arch, s.overlay).value
      ensures err == None && s.overlay != "" ==>
        var (native, target) := OverlayImages(w, arch, s.overlay).value;
        && overlay == Some(Overlay(s.overlay, ContainerAsset("", native.ociPath, "", false), s.overlayOptions))
        && overlayInstaller == ContainerAsset("", target.ociPath, "", false)
        && w.overlays.Some? && FindOverlay(w.overlays.value, s.overlay).Some?
        && w.mergeOverlay(arch, FindOverlay(w.overlays.value, s.overlay).value, old(options)) == Some(options)
      ensures s.overlay == "" ==>
        overlay == old(overlay) && overlayInstaller == old(overlayInstaller) && options == old(options)
    {
      hide Captured;
      err := None;
      if s.overlay != "" {
        if w.overlays.None? {
          return Some(Failed);
        }
        var ref := FindOverlay(w.overlays.value, s.overlay);
        if ref.None? {
          return Some(Invalid);
        }
        var native := w.overlay(w.goarch, ref.value);
        if native.None? {
          return Some(Failed);
        }
        var nativePath := producer.Capture(OVERLAY, w.goarch, native.value);
        var target := w.overlay(arch, ref.value);
        if target.None? {
          return Some(Failed);
        }
        var targetPath := producer.Capture(OVERLAY, arch, target.value);
        var merged := w.mergeOverlay(arch, ref.value, options);
        if merged.None? {
          return Some(Failed);
        }
        options := merged.value;
        overlay := Some(Overlay(s.overlay, ContainerAsset("", nativePath, "", false), s.overlayOptions));
        overlayInstaller := ContainerAsset("", targetPath, "", false);
      }
    }

    /** The extensions, the schematic's own tarball and the overlay. */
    method AddImages(w: World, producer: CapturingProducer, s: Schematic) returns (err: Option<Error>)
      requires producer.Valid() && !Bare(kind)
      modifies this`systemExtensions, this`overlay, this`overlayInstaller, this`options, producer
      ensures producer.Valid()
      ensures err == ImagesError(w, arch, s, old(options))
      ensures err == None ==> ImagesConsumed(w, arch, s).Some?
      ensures err == None ==> producer.consumed == old(producer.consumed) + ImagesConsumed(w, arch, s).value
      ensures err == None ==> ImagesPlaced(w, s, old(systemExtensions))
      ensures err == None ==>
        if s.overlay == "" then options == old(options) else OverlayMerged(w, s, arch, old(options), options)
    {
      hide Captured, ExtensionImages, OverlayImages;
      err := AddExtensions(w, producer, s.extensions);
      if err != None { return; }
      if w.tarball.None? {
        return Some(Failed);
      }
      systemExtensions := systemExtensions + [ContainerAsset("", "", w.tarball.value, false)];
      err := AddOverlay(w, producer, s);
    }

    method Customize(w: World, s: Schematic)
      modifies this`options
      ensures options == Customized(old(options), kind, secureBoot, w.quirks.unifiedInstaller, s)
    {
      match kind
      case Initramfs =>
      case Kernel =>
      case Installer =>
        if secureBoot || w.quirks.unifiedInstaller {
          options := options.(kernelArgs := options.kernelArgs + s.kernelArgs);
        }
      case UKI =>
        if secureBoot || w.quirks.unifiedInstaller {
          options := options.(kernelArgs := options.kernelArgs + s.kernelArgs);
        }
      case ISO =>
        SetKernelArgsAndMeta(s);
        if s.bootloader != "none" {
          options := options.(iso := options.iso.(bootloader := s.bootloader));
        }
      case Image =>
        SetKernelArgsAndMeta(s);
        if s.bootloader != "none" {
          options := options.(image := options.image.(bootloader := s.bootloader));
        }
        if s.sectorSize != 0 {
          options := options.(sectorSize := s.sectorSize);
        }
      case _ =>
        SetKernelArgsAndMeta(s);
    }

    method SetKernelArgsAndMeta(s: Schematic)
      modifies this`options
      ensures options
          == old(options).(kernelArgs := old(options).kernelArgs + s.kernelArgs, meta := old(options).meta + s.meta)
    {
      options := options.(kernelArgs := options.kernelArgs + s.kernelArgs);
      options := options.(meta := options.meta + s.meta);
    }

    /** Enhances the profile, or reports the first thing that is in the way. If it succeeds, exactly the images of
    `Consumed` were taken, and they are where they belong: the extensions in the order of the schematic and after them
    its own tarball. */
    method EnhanceFromSchematic(w: World, s: Schematic, producer: CapturingProducer, fakeRef: string,
                                versionTag: string)
      returns (err: Option<Error>)
      requires producer.Valid()
      modifies this, producer
      ensures producer.Valid()
      ensures err == EnhanceError(w, kind, arch, old(secureBoot), s, old(options))
      ensures err == None ==> Consumed(w, kind, arch, s).Some?
      ensures err == None ==> producer.consumed == old(producer.consumed) + Consumed(w, kind, arch, s).value
      ensures err == None ==> Placed(w, s, old(systemExtensions))
      ensures err == None ==> secureBoot == Signed(w, kind, old(secureBoot))
      ensures err == None ==>
        OptionsFrom(w, s, kind, arch, secureBoot, Prepared(w, kind, old(secureBoot), s, old(options)), options)
      ensures err == None && !kind.Installer? ==> baseInstaller == old(baseInstaller)
      ensures err == None && s.overlay != "" ==> w.quirks.overlay
      ensures err == None ==> version == versionTag
    {
      hide Captured, Consumed, OverlayMerged, Customized, PrepareError, Signed, Prepared, TakeError;
      hide Profile.Placed;
      err := Prepare(w, s);
      if err != None { return; }
      err := TakeImages(w, s, producer, fakeRef);
      if err != None { return; }
      Customize(w, s);
      version := versionTag;
    }

    /** Takes the base installer, the extensions and the overlay. */
    method TakeImages(w: World, s: Schematic, producer: CapturingProducer, fakeRef: string) returns (err: Option<Error>)
      requires producer.Valid()
      modifies this`baseInstaller, this`systemExtensions, this`overlay, this`overlayInstaller, this`options, producer
      ensures producer.Valid()
      ensures err == TakeError(w, kind, arch, s, old(options))
      ensures err == None ==> Consumed(w, kind, arch, s).Some?
      ensures err == None ==> producer.consumed == old(producer.consumed) + Consumed(w, kind, arch, s).value
      ensures err == None ==> Placed(w, s, old(systemExtensions))
      ensures err == None && !kind.Installer? ==> baseInstaller == old(baseInstaller)
      ensures err == None ==>
        if Bare(kind) || s.overlay == "" then options == old(options)
            else OverlayMerged(w, s, arch, old(options), options)
    {
      hide Captured, ImagesConsumed, ImagesPlaced, OverlayMerged, ImagesError;
      err := SetBaseInstaller(w, producer, fakeRef);
      if err != None { return; }
      if !Bare(kind) {
        err := AddImages(w, producer, s);
        if err != None { return; }
      }
    }

    /** The consumed images are in the profile. */
    ghost predicate Placed(w: World, s: Schematic, before: seq<ContainerAsset>)
      reads this`baseInstaller, this`systemExtensions, this`overlay, this`overlayInstaller
    {
      && (kind.Installer? ==> w.installer(arch).Some? && baseInstaller.ociPath == w.installer(arch).value.ociPath)
      && (Bare(kind) ==> systemExtensions == before)
      && (!Bare(kind) ==> ImagesPlaced(w, s, before))
    }

    ghost predicate ImagesPlaced(w: World, s: Schematic, before: seq<ContainerAsset>)
      reads this`systemExtensions, this`overlay, this`overlayInstaller
    {
      && ExtensionImages(w, arch, s.extensions).Some? && w.tarball.Some?
      && systemExtensions == before + AsAssets(ExtensionImages(w, arch, s.extensions).value)
                             + [ContainerAsset("", "", w.tarball.value, false)]
      && (s.overlay != "" ==>
            && OverlayImages(w, arch, s.overlay).Some? && overlay.Some?
            && overlay.value.image.ociPath == OverlayImages(w, arch, s.overlay).value.0.ociPath
            && overlayInstaller.ociPath == OverlayImages(w, arch, s.overlay).value.1.ociPath)
    }

    /** Enhances the profile, binds its base installer to the digest that was resolved, and returns what was consumed,
    each image once. */
    method EnhanceWithDependencies(w: World, s: Schematic, fakeRef: string, versionTag: string)
      returns (err: Option<Error>, dependencies: seq<Dependency>)
      modifies this
      ensures err == EnhanceError(w, kind, arch, old(secureBoot), s, old(options))
      ensures err == None ==>
        Consumed(w, kind, arch, s).Some? && dependencies == Captured(Consumed(w, kind, arch, s).value)
      ensures err == None ==> Placed(w, s, old(systemExtensions))
      ensures err == None && kind.Installer? ==>
        w.installer(arch).Some? && baseInstaller.imageRef == w.installer(arch).value.ref
    {
      hide Captured, ExtensionImages, OverlayImages;
      dependencies := [];
      var producer := new CapturingProducer();
      err := EnhanceFromSchematic(w, s, producer, fakeRef, versionTag);
      if err != None { return; }
      dependencies := producer.dependencies;
      assert [] + Consumed(w, kind, arch, s).value == Consumed(w, kind, arch, s).value;
      for i := 0 to |dependencies|
        invariant forall j :: 0 <= j < i ==> dependencies[j].kind != BASE_INSTALLER
        invariant Placed(w, s, old(systemExtensions))
      {
        if dependencies[i].kind == BASE_INSTALLER {
          OnlyBase(w, kind, arch, s, dependencies, i);
          baseInstaller := baseInstaller.(imageRef := dependencies[i].image.ref);
          return;
        }
      }
      BaseIsCaptured(w, kind, arch, s, dependencies);
    }
  }

  predicate AutoSigns(w: World, kind: OutputKind) {
    kind.Installer? && w.quirks.unifiedInstaller && !w.quirks.forcesLockdown && !w.secureBoot.NoService?
  }

  /** Assets that cannot be had matter to an installer that would be signed automatically only when the service fails,
  and to a profile with secure boot always, where a factory without the service panics; keys are enrolled only in a
  known way. */
  function SecureBootError(w: World, kind: OutputKind, secureBoot: bool, enroll: string): Option<Error> {
    if !secureBoot && !AutoSigns(w, kind) then None
    else
      match w.secureBoot
      case Broken => Some(Failed)
      case Enabled(_) => if enroll != "" && !w.knownEnroll(enroll) then Some(Invalid) else None
      case Disabled => if secureBoot then Some(Invalid) else None
      case NoService => if secureBoot then Some(Panics) else None
  }

  /** Whether an installer or another profile ends up signed. */
  predicate Signed(w: World, kind: OutputKind, secureBoot: bool) {
    secureBoot || (AutoSigns(w, kind) && w.secureBoot.Enabled?)
  }

  function Enrolled(o: Options, kind: OutputKind, enroll: string): Options {
    if enroll == "" then o
    else if kind.ISO? then o.(iso := o.iso.(enroll := enroll))
    else if kind.Image? then o.(image := o.image.(enroll := enroll))
    else o
  }

  /** An overlay that is not on offer is invalid; one whose images or profile cannot be had is a failure. */
  function OverlayError(w: World, arch: string, name: string, options: Options): Option<Error> {
    if name == "" then None
    else if w.overlays.None? then Some(Failed)
    else
      match FindOverlay(w.overlays.value, name)
      case None => Some(Invalid)
      case Some(ref) =>
        if OverlayImages(w, arch, name).None? || w.mergeOverlay(arch, ref, options).None? then Some(Failed) else None
  }

  /** The customizations come after what the overlay's own profile says. */
  ghost predicate OptionsFrom(w: World, s: Schematic, kind: OutputKind, arch: string, signed: bool, prepared: Options,
                              after: Options) {
    if Bare(kind) || s.overlay == "" then after == Customized(prepared, kind, signed, w.quirks.unifiedInstaller, s)
    else
      exists merged :: OverlayMerged(w, s, arch, prepared, merged)
                       && after == Customized(merged, kind, signed, w.quirks.unifiedInstaller, s)
  }

  ghost predicate OverlayMerged(w: World, s: Schematic, arch: string, before: Options, merged: Options) {
    && w.overlays.Some? && FindOverlay(w.overlays.value, s.overlay).Some?
    && w.mergeOverlay(arch, FindOverlay(w.overlays.value, s.overlay).value, before) == Some(merged)
  }

  function ExtensionError(w: World, arch: string, name: string): Option<Error> {
    if w.available.None? then Some(Failed)
    else
      match Resolve(w.available.value, name)
      case None => Some(Invalid)
      case Some(ref) => if w.extension(arch, ref).None? then Some(Failed) else None
  }

  /** The error of the first extension that cannot be had. */
  function ExtensionsError(w: World, arch: string, names: seq<string>): Option<Error> {
    if names == [] then None
    else
      match ExtensionsError(w, arch, names[..|names| - 1])
      case Some(e) => Some(e)
      case None => ExtensionError(w, arch, names[|names| - 1])
  }

  function ImagesError(w: World, arch: string, s: Schematic, options: Options): Option<Error> {
    match ExtensionsError(w, arch, s.extensions)
    case Some(e) => Some(e)
    case None => if w.tarball.None? then Some(Failed) else OverlayError(w, arch, s.overlay, options)
  }

  /** The options when the overlay's profile is merged in. */
  function Prepared(w: World, kind: OutputKind, secureBoot: bool, s: Schematic, o: Options): Options {
    var embedded := if !Bare(kind) && s.embedded != "" then o.(embedded := s.embedded) else o;
    if Signed(w, kind, secureBoot) then Enrolled(embedded, kind, s.enrollKeys) else embedded
  }

  /** The first thing that is in the way of an enhancement. */
  function EnhanceError(w: World, kind: OutputKind, arch: string, secureBoot: bool, s: Schematic,
                        o: Options): Option<Error> {
    match PrepareError(w, kind, secureBoot, s)
    case Some(e) => Some(e)
    case None => TakeError(w, kind, arch, s, Prepared(w, kind, secureBoot, s, o))
  }

  /** What cannot be had. */
  function TakeError(w: World, kind: OutputKind, arch: string, s: Schematic, prepared: Options): Option<Error> {
    if kind.Installer? && w.installer(arch).None? then Some(Failed)
    else if Bare(kind) then None
    else ImagesError(w, arch, s, prepared)
  }

  /** What the version does not support, or secure boot does not allow. */
  function PrepareError(w: World, kind: OutputKind, secureBoot: bool, s: Schematic): Option<Error> {
    if !Bare(kind) && s.embedded != "" && !w.quirks.embeddedConfig then Some(Invalid)
    else
      match SecureBootError(w, kind, secureBoot, s.enrollKeys)
      case Some(e) => Some(e)
      case None => if s.overlay != "" && !w.quirks.overlay then Some(Invalid) else None
  }

  lemma {:induction false} ExtensionsErrorIff(w: World, arch: string, names: seq<string>)
    ensures ExtensionsError(w, arch, names) == None <==> ExtensionImages(w, arch, names).Some?
    ensures ExtensionsError(w, arch, names) == None
        <==> forall name :: name in names ==> ExtensionError(w, arch, name) == None
  {
    hide ExtensionError;
    if names != [] {
      var rest, last := names[..|names| - 1], names[|names| - 1];
      ExtensionsErrorIff(w, arch, rest);
      OneExtensionError(w, arch, last);
      assert names == rest + [last];
    }
  }

  lemma OneExtensionError(w: World, arch: string, name: string)
    ensures ExtensionError(w, arch, name) == None <==> ExtensionImage(w, arch, name).Some?
  {
  }

  /** An enhancement succeeds exactly when everything it consumes is there, the schematic's own extension among it; the
  overlay's profile can be merged; the version supports what is asked of it; and a profile that is to be signed can be,
  with keys enrolled in a known way. */
  lemma EnhancesIff(w: World, kind: OutputKind, arch: string, secureBoot: bool, s: Schematic, o: Options)
    ensures EnhanceError(w, kind, arch, secureBoot, s, o) == None <==>
      && Consumed(w, kind, arch, s).Some?
      && (!Bare(kind) ==> w.tarball.Some? && Mergeable(w, arch, s.overlay, Prepared(w, kind, secureBoot, s, o)))
      && (s.embedded != "" && !Bare(kind) ==> w.quirks.embeddedConfig)
      && (s.overlay != "" ==> w.quirks.overlay)
      && (secureBoot ==> w.secureBoot.Enabled?)
      && (AutoSigns(w, kind) ==> !w.secureBoot.Broken?)
      && (Signed(w, kind, secureBoot) && s.enrollKeys != "" ==> w.knownEnroll(s.enrollKeys))
  {
    ExtensionsErrorIff(w, arch, s.extensions);
    hide ExtensionsError, ExtensionImages, Prepared, FindOverlay;
  }

  predicate Mergeable(w: World, arch: string, name: string, options: Options) {
    name != "" && w.overlays.Some? && FindOverlay(w.overlays.value, name).Some? ==>
      w.mergeOverlay(arch, FindOverlay(w.overlays.value, name).value, options).Some?
  }

  lemma NextExtension(w: World, arch: string, names: seq<string>, i: nat)
    requires i < |names| && ExtensionImages(w, arch, names[..i]).Some?
    ensures ExtensionImages(w, arch, names[..i + 1]) ==
      match ExtensionImage(w, arch, names[i])
      case None => None
      case Some(image) => Some(ExtensionImages(w, arch, names[..i]).value + [image])
    ensures ExtensionsError(w, arch, names[..i]) == None ==>
      ExtensionsError(w, arch, names[..i + 1]) == ExtensionError(w, arch, names[i])
  {
    assert names[..i + 1][..i] == names[..i];
  }

  lemma {:induction false} MissingExtension(w: World, arch: string, names: seq<string>, i: nat)
    requires i < |names| && ExtensionImages(w, arch, names[..i + 1]).None?
      && ExtensionsError(w, arch, names[..i + 1]) != None
    ensures ExtensionImages(w, arch, names).None?
    ensures ExtensionsError(w, arch, names) == ExtensionsError(w, arch, names[..i + 1])
    decreases |names| - i
  {
    if i + 1 < |names| {
      assert names[..i + 2][..i + 1] == names[..i + 1];
      MissingExtension(w, arch, names, i + 1);
    } else {
      assert names[..i + 1] == names;
    }
  }

  lemma KindsDiffer()
    ensures BASE_INSTALLER != EXTENSION && BASE_INSTALLER != OVERLAY
  {
    assert |BASE_INSTALLER| != |EXTENSION| && |BASE_INSTALLER| != |OVERLAY|;
  }

  /** A base installer among the dependencies is the one image resolved for an installer. */
  lemma OnlyBase(w: World, kind: OutputKind, arch: string, s: Schematic, deps: seq<Dependency>, i: nat)
    requires Consumed(w, kind, arch, s).Some? && deps == Captured(Consumed(w, kind, arch, s).value)
    requires i < |deps| && deps[i].kind == BASE_INSTALLER
    ensures kind.Installer? && w.installer(arch) == Some(deps[i].image)
  {
    hide ExtensionImages, OverlayImages, Captured;
    KindsDiffer();
    CapturedCapturesAll(Consumed(w, kind, arch, s).value);
    hide Key;
    assert deps[i] in Consumed(w, kind, arch, s).value;
  }

  lemma BaseIsCaptured(w: World, kind: OutputKind, arch: string, s: Schematic, deps: seq<Dependency>)
    requires Consumed(w, kind, arch, s).Some? && deps == Captured(Consumed(w, kind, arch, s).value)
    requires forall j :: 0 <= j < |deps| ==> deps[j].kind != BASE_INSTALLER
    ensures !kind.Installer?
  {
    hide ExtensionImages, OverlayImages, Captured, Key;
    if kind.Installer? {
      FirstIsCaptured(Consumed(w, kind, arch, s).value);
    }
  }

  lemma {:induction false} FirstIsCaptured(consumed: seq<Dependency>)
    requires consumed != []
    ensures Captured(consumed) != [] && Captured(consumed)[0] == consumed[0]
  {
    if |consumed| == 1 {
      assert Captured(consumed[..0]) == [];
    } else {
      FirstIsCaptured(consumed[..|consumed| - 1]);
    }
  }
}
