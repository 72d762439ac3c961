/** What an enhancement does to the options of a profile, output kind by output kind (internal/profile/profile.go,
EnhanceFromSchematic), and when a profile is signed. */
module EnhancedOptions {
  import opened Strings
  import opened Extensions
  import opened PathParser
  import opened Enhance

  /** A profile with secure boot is signed, and so is an installer that nobody asked secure boot for, if the version has
  a unified installer, does not force lockdown, and the factory has the assets. */
  predicate IsSigned(w: World, kind: OutputKind, asked: bool) {
    || asked
    || (kind == Installer && w.quirks.unifiedInstaller && !w.quirks.forcesLockdown && w.secureBoot.Enabled?)
  }

  lemma SignedIff(w: World, kind: OutputKind, asked: bool)
    ensures Signed(w, kind, asked) <==> IsSigned(w, kind, asked)
  {
  }

  /** Only the loader's bootloader, or its enrolment of keys, may differ, each as given. */
  predicate IsLoader(o: LoaderOptions, bootloader: Option<string>, enroll: Option<string>, after: LoaderOptions) {
    && after.bootloader == (if bootloader.Some? then bootloader.value else o.bootloader)
    && after.enroll == (if enroll.Some? then enroll.value else o.enroll)
  }

  /** Before an overlay: the embedded configuration, but for kernels and command lines, and the enrolment of keys of a
  signed ISO or disk image. */
  predicate IsPrepared(o: Options, kind: OutputKind, signed: bool, s: Schematic, after: Options) {
    var enroll := if signed && s.enrollKeys != "" then Some(s.enrollKeys) else None;
    && after.embedded == (if s.embedded != "" && kind != Kernel && kind != Cmdline then s.embedded else o.embedded)
    && after.kernelArgs == o.kernelArgs && after.meta == o.meta && after.sectorSize == o.sectorSize
    && IsLoader(o.iso, None, if kind == ISO then enroll else None, after.iso)
    && IsLoader(o.image, None, if kind == Image then enroll else None, after.image)
  }

  /** After it: kernel arguments for command lines and whole images, for an installer or a UKI that is signed or
  unified, and not for a kernel or an initramfs; META for command lines and whole images; the bootloader of an ISO or a
  disk image, unless there is to be none; and the sector size of a disk image. */
  predicate IsCustomized(o: Options, kind: OutputKind, signed: bool, unified: bool, s: Schematic, after: Options) {
    var bootloader := if s.bootloader != "none" then Some(s.bootloader) else None;
    && after.embedded == o.embedded
    && (kind == Kernel || kind == Initramfs ==> after.kernelArgs == o.kernelArgs)
    && ((kind == Installer || kind == UKI) && (signed || unified) ==> after.kernelArgs == o.kernelArgs + s.kernelArgs)
    && ((kind == Installer || kind == UKI) && !signed && !unified ==> after.kernelArgs == o.kernelArgs)
    && (kind == ISO || kind == Image || kind == Cmdline ==>
          after.kernelArgs == o.kernelArgs + s.kernelArgs && after.meta == o.meta + s.meta)
    && (kind != ISO && kind != Image && kind != Cmdline ==> after.meta == o.meta)
    && IsLoader(o.iso, if kind == ISO then bootloader else None, None, after.iso)
    && IsLoader(o.image, if kind == Image then bootloader else None, None, after.image)
    && after.sectorSize == (if kind == Image && s.sectorSize != 0 then s.sectorSize else o.sectorSize)
  }

  lemma PreparedIs(w: World, kind: OutputKind, asked: bool, s: Schematic, o: Options)
    ensures IsPrepared(o, kind, IsSigned(w, kind, asked), s, Prepared(w, kind, asked, s, o))
  {
  }

  lemma CustomizedIs(o: Options, kind: OutputKind, signed: bool, unified: bool, s: Schematic)
    ensures IsCustomized(o, kind, signed, unified, s, Customized(o, kind, signed, unified, s))
  {
    assert o.meta + [] == o.meta && o.kernelArgs + [] == o.kernelArgs;
  }

  ghost predicate IsEnhanced(o: Options, kind: OutputKind, signed: bool, unified: bool, s: Schematic, after: Options) {
    exists prepared ::
      IsPrepared(o, kind, signed, s, prepared) && IsCustomized(prepared, kind, signed, unified, s, after)
  }

  /** With an overlay, its own profile is merged in between. */
  ghost predicate IsEnhancedOver(w: World, o: Options, kind: OutputKind, arch: string, signed: bool, s: Schematic,
                                 after: Options) {
    exists prepared, merged, ref ::
      && IsPrepared(o, kind, signed, s, prepared)
      && w.overlays.Some? && FindOverlay(w.overlays.value, s.overlay) == Some(ref)
      && w.mergeOverlay(arch, ref, prepared) == Some(merged)
      && IsCustomized(merged, kind, signed, w.quirks.unifiedInstaller, s, after)
  }

  /** The options of an enhanced profile, from those it had. */
  lemma OptionsAre(w: World, s: Schematic, kind: OutputKind, arch: string, asked: bool, o: Options, after: Options)
    requires OptionsFrom(w, s, kind, arch, Signed(w, kind, asked), Prepared(w, kind, asked, s, o), after)
    ensures var signed := IsSigned(w, kind, asked);
      if kind == Kernel || kind == Cmdline || s.overlay == "" then
        IsEnhanced(o, kind, signed, w.quirks.unifiedInstaller, s, after)
      else IsEnhancedOver(w, o, kind, arch, signed, s, after)
  {
    var prepared, unified := Prepared(w, kind, asked, s, o), w.quirks.unifiedInstaller;
    SignedIff(w, kind, asked);
    PreparedIs(w, kind, asked, s, o);
    var signed := IsSigned(w, kind, asked);
    assert Bare(kind) <==> kind == Kernel || kind == Cmdline;
    hide Prepared, Customized, IsPrepared, IsCustomized, IsSigned, Signed, FindOverlay, Bare;
    if kind == Kernel || kind == Cmdline || s.overlay == "" {
      CustomizedIs(prepared, kind, signed, unified, s);
    } else {
      var merged :| OverlayMerged(w, s, arch, prepared, merged)
          && after == Customized(merged, kind, signed, unified, s);
      CustomizedIs(merged, kind, signed, unified, s);
    }
  }

  /** An enhancement succeeds exactly when the version supports what is asked of it; a profile that is to be signed can
  be, with keys enrolled in a known way; and all images are there, the schematic's own extension among them. */
  lemma EnhancementSucceedsIff(w: World, kind: OutputKind, arch: string, asked: bool, s: Schematic, o: Options)
    ensures EnhanceError(w, kind, arch, asked, s, o) == None <==>
      && (s.embedded != "" && kind != Kernel && kind != Cmdline ==> w.quirks.embeddedConfig)
      && (s.overlay != "" ==> w.quirks.overlay)
      && (asked ==> w.secureBoot.Enabled?)
      && (kind == Installer && w.quirks.unifiedInstaller && !w.quirks.forcesLockdown ==> !w.secureBoot.Broken?)
      && (IsSigned(w, kind, asked) && s.enrollKeys != "" ==> w.knownEnroll(s.enrollKeys))
      && (kind == Installer ==> w.installer(arch).Some?)
      && (kind != Kernel && kind != Cmdline ==>
            && w.tarball.Some?
            && (forall name :: name in s.extensions ==> ExtensionImage(w, arch, name).Some?)
            && (s.overlay != "" ==> OverlayIsThere(w, arch, s.overlay, Prepared(w, kind, asked, s, o))))
  {
    hide ExtensionsError, ExtensionImages, Prepared, FindOverlay, ExtensionImage, ExtensionError;
    ExtensionsErrorIff(w, arch, s.extensions);
    forall name | name in s.extensions ensures ExtensionError(w, arch, name) == None
        <==> ExtensionImage(w, arch, name).Some? {
      OneExtensionError(w, arch, name);
    }
  }

  /** The overlay is on offer, its images for both architectures are there, and its profile can be merged. */
  predicate OverlayIsThere(w: World, arch: string, name: string, options: Options) {
    && w.overlays.Some?
    && FindOverlay(w.overlays.value, name).Some?
    && var ref := FindOverlay(w.overlays.value, name).value;
    && w.overlay(w.goarch, ref).Some? && w.overlay(arch, ref).Some? && w.mergeOverlay(arch, ref, options).Some?
  }

  /** The images of an enhancement, in order: the base installer of an installer; and but for kernels and command lines
  one for each extension of the schematic, and the overlay for the factory's own architecture and for the profile's. */
  lemma ConsumedAre(w: World, kind: OutputKind, arch: string, s: Schematic)
    requires Consumed(w, kind, arch, s).Some?
    ensures var images := Consumed(w, kind, arch, s).value;
      var base, bare := if kind == Installer then 1 else 0, kind == Kernel || kind == Cmdline;
      var n := |s.extensions|;
      && |images| == base + (if bare then 0 else n + if s.overlay == "" then 0 else 2)
      && (kind == Installer ==>
          Some(images[0].image) == w.installer(arch) && images[0].kind == "base-installer" && images[0].arch == arch)
      && (!bare ==> forall i :: 0 <= i < n ==>
            var d := images[base + i];
            d.kind == "extension" && d.arch == arch && ExtensionImage(w, arch, s.extensions[i]) == Some(d.image))
      && (!bare && s.overlay != "" ==>
            && w.overlays.Some? && FindOverlay(w.overlays.value, s.overlay).Some?
            && var ref := FindOverlay(w.overlays.value, s.overlay).value;
            && images[base + n].kind == "overlay" == images[base + n + 1].kind
            && images[base + n].arch == w.goarch && Some(images[base + n].image) == w.overlay(w.goarch, ref)
            && images[base + n + 1].arch == arch && Some(images[base + n + 1].image) == w.overlay(arch, ref))
  {
    hide ExtensionImages, ExtensionImage, FindOverlay;
    if kind != Kernel && kind != Cmdline {
      ExtensionImagesInOrder(w, arch, s.extensions);
    }
  }

  /** The first overlay of that name. */
  lemma {:induction false} OverlayIsFirst(available: seq<OverlayRef>, name: string)
    ensures FindOverlay(available, name) == None <==> forall i :: 0 <= i < |available| ==> available[i].name != name
    ensures FindOverlay(available, name).Some? ==>
      exists i :: 0 <= i < |available| && FindOverlay(available, name) == Some(available[i])
          && available[i].name == name
                  && forall j :: 0 <= j < i ==> available[j].name != name
  {
    if available != [] {
      var rest := available[1..];
      OverlayIsFirst(rest, name);
      assert forall i :: 0 < i < |available| ==> available[i] == rest[i - 1];
      if available[0].name != name && FindOverlay(available, name).Some? {
        var i :| 0 <= i < |rest| && FindOverlay(rest, name) == Some(rest[i]) && rest[i].name == name
                 && forall j :: 0 <= j < i ==> rest[j].name != name;
        assert available[i + 1] == rest[i];
      } else if available[0].name != name {
        assert forall i :: 0 <= i < |rest| ==> rest[i] == available[i + 1];
      }
    }
  }

  // ---------------------------------------------------------------- what is in the way

  /** Something that is in the way, if it is, and how that is reported. */
  datatype Obstacle = Obstacle(there: bool, error: Error)

  /** The first obstacle that is there is reported. */
  ghost predicate Reports(obstacles: seq<Obstacle>, error: Option<Error>) {
    match error
    case None => forall i :: 0 <= i < |obstacles| ==> !obstacles[i].there
    case Some(e) =>
      exists k :: 0 <= k < |obstacles| && obstacles[k] == Obstacle(true, e)
                  && forall i :: 0 <= i < k ==> !obstacles[i].there
  }

  /** What the version does not support and secure boot does not allow. */
  function Preparing(w: World, kind: OutputKind, asked: bool, s: Schematic): seq<Obstacle> {
    var auto := kind == Installer && w.quirks.unifiedInstaller && !w.quirks.forcesLockdown;
    [ Obstacle(kind != Kernel && kind != Cmdline && s.embedded != "" && !w.quirks.embeddedConfig, Invalid),
      Obstacle(asked && w.secureBoot.NoService?, Panics),
      Obstacle(asked && w.secureBoot.Disabled?, Invalid),
      Obstacle((asked || auto) && w.secureBoot.Broken?, Failed),
      Obstacle(IsSigned(w, kind, asked) && s.enrollKeys != "" && !w.knownEnroll(s.enrollKeys), Invalid),
      Obstacle(s.overlay != "" && !w.quirks.overlay, Invalid) ]
  }

  /** Of the extensions, the first one that cannot be had is not on offer. */
  ghost predicate FirstIsUnknown(w: World, arch: string, names: seq<string>) {
    exists i :: 0 <= i < |names| && IsUnknown(w, names[i])
                && forall j :: 0 <= j < i ==> ExtensionImage(w, arch, names[j]).Some?
  }

  ghost predicate IsUnknown(w: World, name: string) {
    w.available.Some? && forall ref :: !IsMeant(w.available.value, name, ref)
  }

  predicate SomeIsMissing(w: World, arch: string, names: seq<string>) {
    exists i :: 0 <= i < |names| && ExtensionImage(w, arch, names[i]).None?
  }

  /** What cannot be had: the base installer, extensions, the schematic's own extension, and the overlay. */
  ghost function Taking(w: World, kind: OutputKind, arch: string, s: Schematic, prepared: Options): seq<Obstacle> {
    var more := kind != Kernel && kind != Cmdline;
    [ Obstacle(kind == Installer && w.installer(arch).None?, Failed),
      Obstacle(more && FirstIsUnknown(w, arch, s.extensions), Invalid),
      Obstacle(more && SomeIsMissing(w, arch, s.extensions), Failed),
      Obstacle(more && w.tarball.None?, Failed),
      Obstacle(more && s.overlay != "" && w.overlays.Some? && FindOverlay(w.overlays.value, s.overlay).None?, Invalid),
      Obstacle(more && s.overlay != "" && !OverlayIsThere(w, arch, s.overlay, prepared), Failed) ]
  }

  lemma PrepareReports(w: World, kind: OutputKind, asked: bool, s: Schematic)
    ensures Reports(Preparing(w, kind, asked, s), PrepareError(w, kind, asked, s))
  {
    var obstacles, error := Preparing(w, kind, asked, s), PrepareError(w, kind, asked, s);
    if error.Some? {
      var k := if obstacles[0].there then 0 else if obstacles[1].there then 1 else if obstacles[2].there then 2
               else if obstacles[3].there then 3 else if obstacles[4].there then 4 else 5;
      assert obstacles[k] == Obstacle(true, error.value);
    }
  }

  lemma {:induction false} ExtensionsReport(w: World, arch: string, names: seq<string>)
    ensures ExtensionsError(w, arch, names) == Some(Invalid) <==> FirstIsUnknown(w, arch, names)
    ensures ExtensionsError(w, arch, names) == None
       <==> !SomeIsMissing(w, arch, names)
    ensures ExtensionsError(w, arch, names) != Some(Panics)
  {
    hide ExtensionError, ExtensionImage, IsUnknown;
    if names != [] {
      var n := |names| - 1;
      var rest := names[..n];
      ExtensionsReport(w, arch, rest);
      ExtensionReports(w, arch, names[n]);
      assert forall i :: 0 <= i < n ==> rest[i] == names[i];
      if FirstIsUnknown(w, arch, rest) {
        var i :| 0 <= i < |rest| && IsUnknown(w, rest[i])
                 && forall j :: 0 <= j < i ==> ExtensionImage(w, arch, rest[j]).Some?;
        assert names[i] == rest[i];
      }
      if FirstIsUnknown(w, arch, names) {
        var i :| 0 <= i < |names| && IsUnknown(w, names[i])
                 && forall j :: 0 <= j < i ==> ExtensionImage(w, arch, names[j]).Some?;
        ExtensionReports(w, arch, names[i]);
        if i < n {
          assert rest[i] == names[i];
        }
      }
    }
  }

  lemma ExtensionReports(w: World, arch: string, name: string)
    ensures ExtensionError(w, arch, name) == None <==> ExtensionImage(w, arch, name).Some?
    ensures ExtensionError(w, arch, name) == Some(Invalid) <==> IsUnknown(w, name)
    ensures ExtensionError(w, arch, name) != Some(Panics)
  {
    hide Resolve, IsMeant;
    if w.available.Some? {
      forall ref ensures Resolve(w.available.value, name) == Some(ref) <==> IsMeant(w.available.value, name, ref) {
        ResolvesIff(w.available.value, name, ref);
      }
    }
  }

  lemma TakeReports(w: World, kind: OutputKind, arch: string, s: Schematic, prepared: Options)
    ensures Reports(Taking(w, kind, arch, s, prepared), TakeError(w, kind, arch, s, prepared))
  {
    hide ExtensionsError, ExtensionImage, FindOverlay, FirstIsUnknown, SomeIsMissing;
    ExtensionsReport(w, arch, s.extensions);
    var obstacles, error := Taking(w, kind, arch, s, prepared), TakeError(w, kind, arch, s, prepared);
    var extensions, overlay := ExtensionsError(w, arch, s.extensions), OverlayError(w, arch, s.overlay, prepared);
    assert overlay.Some? ==>
      overlay.value == if w.overlays.Some? && FindOverlay(w.overlays.value, s.overlay).None? then Invalid else Failed;
    if error.Some? {
      if obstacles[0].there {
        assert obstacles[0] == Obstacle(true, error.value);
      } else if extensions.Some? {
        assert obstacles[if extensions.value == Invalid then 1 else 2] == Obstacle(true, error.value);
      } else if obstacles[3].there {
        assert obstacles[3] == Obstacle(true, error.value);
      } else {
        assert obstacles[if obstacles[4].there then 4 else 5] == Obstacle(true, error.value);
      }
    }
  }

  /** An enhancement reports the first thing in its way: what is asked for and not supported or not on offer is invalid,
  what cannot be had is a failure, and secure boot without a service for it is a panic. */
  lemma FirstObstacleIsReported(w: World, kind: OutputKind, arch: string, asked: bool, s: Schematic, o: Options)
    ensures Reports(Preparing(w, kind, asked, s) + Taking(w, kind, arch, s, Prepared(w, kind, asked, s, o)),
                    EnhanceError(w, kind, arch, asked, s, o))
  {
    var prepared := Prepared(w, kind, asked, s, o);
    PrepareReports(w, kind, asked, s);
    TakeReports(w, kind, arch, s, prepared);
    hide Preparing, Taking, Prepared, PrepareError, TakeError;
    ReportsBoth(Preparing(w, kind, asked, s), Taking(w, kind, arch, s, prepared), PrepareError(w, kind, asked, s),
                TakeError(w, kind, arch, s, prepared));
  }

  lemma ReportsBoth(a: seq<Obstacle>, b: seq<Obstacle>, x: Option<Error>, y: Option<Error>)
    requires Reports(a, x) && Reports(b, y)
    ensures Reports(a + b, if x.Some? then x else y)
  {
    if x.Some? {
      var k :| 0 <= k < |a| && a[k] == Obstacle(true, x.value) && forall i :: 0 <= i < k ==> !a[i].there;
      assert (a + b)[k] == a[k];
    } else if y.Some? {
      var k :| 0 <= k < |b| && b[k] == Obstacle(true, y.value) && forall i :: 0 <= i < k ==> !b[i].there;
      assert (a + b)[|a| + k] == b[k];
    }
  }
}
