/** The path parser as it runs: a profile updated field by field, and the path shortened suffix by suffix. */
module PathMethods {
  import opened Strings
  import opened PathParser

  class ImagerProfile {
    var kind: OutputKind
    var outFormat: OutFormat
    var platform: string
    var arch: string
    var secureBoot: bool
    var imageOptions: Option<ImageOptions>

    constructor ()
      ensures outFormat == OutRaw && platform == "" && arch == "" && !secureBoot && imageOptions == None
    {
      kind, outFormat, platform, arch, secureBoot, imageOptions := Kernel, OutRaw, "", "", false, None;
    }

    function Value(): Profile
      reads this
    {
      Profile(kind, outFormat, platform, arch, secureBoot, imageOptions)
    }
  }

  /** Sets the architecture, or leaves the profile alone and reports the text that is none. */
  method SetArch(s: string, prof: ImagerProfile) returns (err: Option<ParseError>)
    modifies prof`arch
    ensures match ParseArch(s)
            case Ok(a) => err == None && prof.arch == a
            case Err(e) => err == Some(e) && prof.arch == old(prof.arch)
  {
    if s == "amd64" || s == "arm64" {
      prof.arch := s;
    } else if s == "x86_64" || s == "i386" {
      prof.arch := "amd64";
    } else {
      return Some(InvalidArchitecture(s));
    }
    return None;
  }

  method SetPlatformArch(text: string, prof: ImagerProfile) returns (err: Option<ParseError>)
    requires !prof.secureBoot
    modifies prof`platform, prof`arch, prof`secureBoot
    ensures match ParsePlatformArch(text)
            case Ok(pa) => err == None && PlatformArch(prof.platform, prof.arch, prof.secureBoot) == pa
            case Err(e) => err == Some(e)
  {
    var s := text;
    var cut := CutSuffix(s, "-secureboot");
    if cut.Some? {
      s := cut.value;
      prof.secureBoot := true;
    }
    var parts := Cut(s, "-");
    if parts.None? {
      return Some(InvalidPlatformArch(s));
    }
    var (platform, rest) := parts.value;
    if platform == "digital" && "ocean-" <= rest {
      platform := DIGITAL_OCEAN;
      rest := rest[|"ocean-"|..];
    }
    prof.platform := platform;
    err := SetArch(rest, prof);
  }

  /** Cuts the first compression suffix of the list that the path ends in. */
  method CutOutFormatSuffix(path: string) returns (rest: string, format: OutFormat)
    ensures (rest, format) == CutOutFormat(path)
  {
    rest, format := path, OutRaw;
    var formats := [OutTar, OutGZ, OutXZ, OutZSTD];
    for i := 0 to |formats|
      invariant rest == path && format == OutRaw
      invariant forall j :: 0 <= j < i ==> !HasSuffix(path, OutExtension(formats[j]))
    {
      var cut := CutSuffix(path, OutExtension(formats[i]));
      if cut.Some? {
        assert i > 0 ==> !HasSuffix(path, OutExtension(formats[0]));
        assert i > 1 ==> !HasSuffix(path, OutExtension(formats[1]));
        assert i > 2 ==> !HasSuffix(path, OutExtension(formats[2]));
        return cut.value, formats[i];
      }
    }
    assert !HasSuffix(path, OutExtension(formats[0])) && !HasSuffix(path, OutExtension(formats[1]))
        && !HasSuffix(path, OutExtension(formats[2])) && !HasSuffix(path, OutExtension(formats[3]));
  }

  method CutDiskFormatSuffix(path: string) returns (r: Option<(string, DiskFormat)>)
    ensures r == CutDiskFormat(path)
  {
    var formats := [DiskRaw, DiskQCOW2, DiskVPC, DiskOVA];
    for i := 0 to |formats|
      invariant forall j :: 0 <= j < i ==> !HasSuffix(path, DiskExtension(formats[j]))
    {
      var cut := CutSuffix(path, DiskExtension(formats[i]));
      if cut.Some? {
        assert i > 0 ==> !HasSuffix(path, DiskExtension(formats[0]));
        assert i > 1 ==> !HasSuffix(path, DiskExtension(formats[1]));
        assert i > 2 ==> !HasSuffix(path, DiskExtension(formats[2]));
        return Some((cut.value, formats[i]));
      }
    }
    assert !HasSuffix(path, DiskExtension(formats[0])) && !HasSuffix(path, DiskExtension(formats[1]))
        && !HasSuffix(path, DiskExtension(formats[2])) && !HasSuffix(path, DiskExtension(formats[3]));
    return None;
  }

  method SetDiskImage(lib: Library, path: string, prof: ImagerProfile) returns (err: Option<ParseError>)
    requires !prof.secureBoot
    modifies prof
    ensures match ParseDisk(lib, path)
            case Ok(p) => err == None && prof.Value() == p
            case Err(e) => err == Some(e)
  {
    hide ParsePlatformArch, CutOutFormat, CutDiskFormat;
    prof.kind := Image;
    var uncompressed, outFormat := CutOutFormatSuffix(path);
    prof.outFormat := outFormat;
    var disk := CutDiskFormatSuffix(uncompressed);
    if disk.None? {
      return Some(InvalidPath(uncompressed));
    }
    var (base, diskFormat) := disk.value;
    var options := ImageOptions(lib.defaultRawDiskSize, diskFormat, "");
    if diskFormat == DiskQCOW2 {
      options := options.(diskFormatOptions := "cluster_size=8k");
    }
    err := SetPlatformArch(base, prof);
    if err.Some? {
      return;
    }
    if prof.platform in lib.platforms {
      var defaults := lib.platforms[prof.platform];
      if defaults.diskSize != 0 {
        options := options.(diskSize := defaults.diskSize);
      }
      if defaults.diskFormatOptions != "" {
        options := options.(diskFormatOptions := defaults.diskFormatOptions);
      }
    }
    prof.imageOptions := Some(options);
  }

  /** The whole parser: on success a fresh profile holding what the path names, otherwise the error. */
  method ParseFromPath(lib: Library, path: string) returns (prof: ImagerProfile, err: Option<ParseError>)
    ensures fresh(prof)
    ensures match Parse(lib, path)
            case Ok(p) => err == None && prof.Value() == p
            case Err(e) => err == Some(e)
  {
    hide ParsePlatformArch, ParseArch, ParseDisk, Cut;
    prof := new ImagerProfile();
    if "kernel-" <= path {
      prof.kind := Kernel;
      prof.platform := METAL;
      err := SetArch(path[|"kernel-"|..], prof);
      return;
    }
    if "cmdline-" <= path {
      prof.kind := Cmdline;
      err := SetPlatformArch(path[|"cmdline-"|..], prof);
      return;
    }
    if Bracketed(path, "initramfs-", ".xz") {
      prof.kind := Initramfs;
      prof.platform := METAL;
      err := SetArch(Inner(path, "initramfs-", ".xz"), prof);
      return;
    }
    if HasSuffix(path, ".iso") {
      prof.kind := ISO;
      err := SetPlatformArch(path[..|path| - |".iso"|], prof);
      return;
    }
    if HasSuffix(path, "-uki.efi") {
      prof.kind := UKI;
      err := SetPlatformArch(path[..|path| - |"-uki.efi"|], prof);
      return;
    }
    if Bracketed(path, "installer-", ".tar") {
      prof.kind := Installer;
      prof.platform := METAL;
      var rest := Inner(path, "installer-", ".tar");
      var cut := CutSuffix(rest, "-secureboot");
      if cut.Some? {
        rest := cut.value;
        prof.secureBoot := true;
      }
      err := SetArch(rest, prof);
      return;
    }
    var cut := Cut(path, "-installer-");
    if cut.Some? && HasSuffix(cut.value.1, ".tar") {
      var (platform, rest) := cut.value;
      prof.kind := Installer;
      err := SetPlatformArch(platform + "-" + rest[..|rest| - |".tar"|], prof);
      return;
    }
    err := SetDiskImage(lib, path, prof);
  }
}
