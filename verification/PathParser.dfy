/** Artifact paths and installer profiles (internal/profile/profile.go). */
module PathParser {
  import opened Strings

  datatype Result<+T> = Ok(value: T) | Err(error: ParseError)

  datatype ParseError =
    | InvalidPlatformArch(text: string)
    | InvalidArchitecture(text: string)
    | InvalidPath(text: string)

  datatype OutputKind = Kernel | Cmdline | Initramfs | ISO | UKI | Installer | Image

  datatype OutFormat = OutRaw | OutTar | OutGZ | OutXZ | OutZSTD

  datatype DiskFormat = DiskRaw | DiskQCOW2 | DiskVPC | DiskOVA

  datatype ImageOptions = ImageOptions(diskSize: nat, diskFormat: DiskFormat, diskFormatOptions: string)

  /** The part of an imager profile that a path decides. */
  datatype Profile = Profile(
    kind: OutputKind,
    outFormat: OutFormat,
    platform: string,
    arch: string,
    secureBoot: bool,
    imageOptions: Option<ImageOptions>)

  /** What the imager library contributes: the size of a raw disk, and each platform's default image options. */
  datatype ImageDefaults = ImageDefaults(diskSize: nat, diskFormatOptions: string)
  datatype Library = Library(defaultRawDiskSize: nat, platforms: map<string, ImageDefaults>)

  const DIGITAL_OCEAN := "digital-ocean"
  const METAL := "metal"

  // ---------------------------------------------------------------- the parser as functions

  function ParseArch(s: string): Result<string> {
    if s == "amd64" || s == "arm64" then Ok(s)
    else if s == "x86_64" || s == "i386" then Ok("amd64")
    else Err(InvalidArchitecture(s))
  }

  datatype PlatformArch = PlatformArch(platform: string, arch: string, secureBoot: bool)

  /** The text before a trailing "-secureboot", and whether there was one. */
  function CutSecureBoot(s: string): (string, bool) {
    match CutSuffix(s, "-secureboot")
    case Some(base) => (base, true)
    case None => (s, false)
  }

  function ParsePlatformArch(s: string): Result<PlatformArch> {
    var (base, secureBoot) := CutSecureBoot(s);
    match Cut(base, "-")
    case None => Err(InvalidPlatformArch(base))
    case Some((first, tail)) =>
      var special := first == "digital" && "ocean-" <= tail;
      var platform := if special then DIGITAL_OCEAN else first;
      var rest := if special then tail[|"ocean-"|..] else tail;
      match ParseArch(rest)
      case Ok(arch) => Ok(PlatformArch(platform, arch, secureBoot))
      case Err(e) => Err(e)
  }

  function OutExtension(f: OutFormat): string {
    match f
    case OutRaw => ""
    case OutTar => ".tar.gz"
    case OutGZ => ".gz"
    case OutXZ => ".xz"
    case OutZSTD => ".zst"
  }

  function DiskExtension(f: DiskFormat): string {
    match f
    case DiskRaw => ".raw"
    case DiskQCOW2 => ".qcow2"
    case DiskVPC => ".vhd"
    case DiskOVA => ".ova"
  }

  /** The path without its compression suffix, and the format that suffix names. */
  function CutOutFormat(path: string): (string, OutFormat) {
    if HasSuffix(path, ".tar.gz") then (path[..|path| - 7], OutTar)
    else if HasSuffix(path, ".gz") then (path[..|path| - 3], OutGZ)
    else if HasSuffix(path, ".xz") then (path[..|path| - 3], OutXZ)
    else if HasSuffix(path, ".zst") then (path[..|path| - 4], OutZSTD)
    else (path, OutRaw)
  }

  function CutDiskFormat(path: string): Option<(string, DiskFormat)> {
    if HasSuffix(path, ".raw") then Some((path[..|path| - 4], DiskRaw))
    else if HasSuffix(path, ".qcow2") then Some((path[..|path| - 6], DiskQCOW2))
    else if HasSuffix(path, ".vhd") then Some((path[..|path| - 4], DiskVPC))
    else if HasSuffix(path, ".ova") then Some((path[..|path| - 4], DiskOVA))
    else None
  }

  function DiskOptions(lib: Library, platform: string, format: DiskFormat): ImageOptions {
    var own := if format.DiskQCOW2? then "cluster_size=8k" else "";
    if platform in lib.platforms then
      var d := lib.platforms[platform];
      ImageOptions(
        if d.diskSize != 0 then d.diskSize else lib.defaultRawDiskSize,
        format,
        if d.diskFormatOptions != "" then d.diskFormatOptions else own)
    else
      ImageOptions(lib.defaultRawDiskSize, format, own)
  }

  function FromPlatformArch(kind: OutputKind, r: Result<PlatformArch>): Result<Profile> {
    match r
    case Ok(pa) => Ok(Profile(kind, OutRaw, pa.platform, pa.arch, pa.secureBoot, None))
    case Err(e) => Err(e)
  }

  function FromArch(kind: OutputKind, secureBoot: bool, r: Result<string>): Result<Profile> {
    match r
    case Ok(arch) => Ok(Profile(kind, OutRaw, METAL, arch, secureBoot, None))
    case Err(e) => Err(e)
  }

  function ParseDisk(lib: Library, path: string): Result<Profile> {
    var (uncompressed, outFormat) := CutOutFormat(path);
    match CutDiskFormat(uncompressed)
    case None => Err(InvalidPath(uncompressed))
    case Some((base, diskFormat)) =>
      match ParsePlatformArch(base)
      case Err(e) => Err(e)
      case Ok(pa) =>
        Ok(Profile(Image, outFormat, pa.platform, pa.arch, pa.secureBoot,
                   Some(DiskOptions(lib, pa.platform, diskFormat))))
  }

  predicate Bracketed(path: string, prefix: string, suffix: string) {
    prefix <= path && HasSuffix(path[|prefix|..], suffix)
  }

  /** The text between a prefix and a suffix. */
  function Inner(path: string, prefix: string, suffix: string): string
    requires Bracketed(path, prefix, suffix)
  {
    path[|prefix|..|path| - |suffix|]
  }

  predicate PlatformInstaller(path: string) {
    var cut := Cut(path, "-installer-");
    cut.Some? && HasSuffix(cut.value.1, ".tar")
  }

  /** Which profile a path names, decided by the first form that matches. */
  function Parse(lib: Library, path: string): Result<Profile> {
    if "kernel-" <= path then
      FromArch(Kernel, false, ParseArch(path[|"kernel-"|..]))
    else if "cmdline-" <= path then
      FromPlatformArch(Cmdline, ParsePlatformArch(path[|"cmdline-"|..]))
    else if Bracketed(path, "initramfs-", ".xz") then
      FromArch(Initramfs, false, ParseArch(Inner(path, "initramfs-", ".xz")))
    else if HasSuffix(path, ".iso") then
      FromPlatformArch(ISO, ParsePlatformArch(path[..|path| - |".iso"|]))
    else if HasSuffix(path, "-uki.efi") then
      FromPlatformArch(UKI, ParsePlatformArch(path[..|path| - |"-uki.efi"|]))
    else if Bracketed(path, "installer-", ".tar") then
      var (base, secureBoot) := CutSecureBoot(Inner(path, "installer-", ".tar"));
      FromArch(Installer, secureBoot, ParseArch(base))
    else if PlatformInstaller(path) then
      var (platform, rest) := Cut(path, "-installer-").value;
      FromPlatformArch(Installer, ParsePlatformArch(platform + "-" + rest[..|rest| - |".tar"|]))
    else
      ParseDisk(lib, path)
  }

  // ---------------------------------------------------------------- the documented grammar

  predicate ValidPlatform(p: string) { NoDash(p) || p == DIGITAL_OCEAN }

  predicate ValidArch(a: string) { a == "amd64" || a == "arm64" }

  /** Exactly the profiles that some path names. */
  predicate Expressible(lib: Library, p: Profile) {
    && ValidArch(p.arch)
    && ValidPlatform(p.platform)
    && (p.kind.Image? <==> p.imageOptions.Some?)
    && (!p.kind.Image? ==> p.outFormat.OutRaw?)
    && match p.kind
       case Kernel => p.platform == METAL && !p.secureBoot
       case Initramfs => p.platform == METAL && !p.secureBoot
       case Cmdline => true
       case ISO => p.platform !in {"kernel", "cmdline"}
       case UKI => p.platform !in {"kernel", "cmdline"}
       case Installer => p.platform !in {"kernel", "cmdline", "installer"}
       case Image =>
         && p.platform !in {"kernel", "cmdline"}
         && !(p.platform == "initramfs" && p.outFormat.OutXZ?)
         && p.imageOptions.value == DiskOptions(lib, p.platform, p.imageOptions.value.diskFormat)
  }

  function SecureBootSuffix(secureBoot: bool): string {
    if secureBoot then "-secureboot" else ""
  }

  /** `<platform>-<arch>[-secureboot]`, with any accepted spelling of the architecture. */
  function PrintPlatformArch(platform: string, archToken: string, secureBoot: bool): string {
    platform + "-" + archToken + SecureBootSuffix(secureBoot)
  }

  /** The documented form of a profile, with the architecture spelled `archToken`. */
  function PrintAs(p: Profile, archToken: string): string {
    var platformArch := PrintPlatformArch(p.platform, archToken, p.secureBoot);
    match p.kind
    case Kernel => "kernel-" + archToken
    case Cmdline => "cmdline-" + platformArch
    case Initramfs => "initramfs-" + (archToken + ".xz")
    case ISO => platformArch + ".iso"
    case UKI => platformArch + "-uki.efi"
    case Installer => p.platform + "-installer-" + (archToken + SecureBootSuffix(p.secureBoot) + ".tar")
    case Image =>
      match p.imageOptions
      case None => platformArch
      case Some(options) => platformArch + DiskExtension(options.diskFormat) + OutExtension(p.outFormat)
  }

  function Print(p: Profile): string { PrintAs(p, p.arch) }

  function PrintBareInstaller(archToken: string, secureBoot: bool): string {
    "installer-" + (archToken + SecureBootSuffix(secureBoot) + ".tar")
  }

  // ---------------------------------------------------------------- platform and architecture

  lemma ArchTokenShape(token: string)
    requires ParseArch(token).Ok?
    ensures NoDash(token) && 4 <= |token| <= 6 && token[0] != 'o'
    ensures token[|token| - 1] == '4' || token[|token| - 1] == '6'
    ensures ValidArch(ParseArch(token).value)
  {
  }

  lemma CutSecureBootPrinted(base: string, token: string, secureBoot: bool)
    requires ParseArch(token).Ok?
    ensures CutSecureBoot(base + token + SecureBootSuffix(secureBoot)) == (base + token, secureBoot)
  {
    ArchTokenShape(token);
    if secureBoot {
      CutSuffixConcat(base + token, "-secureboot");
    } else {
      assert base + token + "" == base + token;
      DifferentEnding(base + token, "-secureboot", 0);
    }
  }

  lemma CutDigitalOcean(token: string)
    ensures Cut(DIGITAL_OCEAN + "-" + token, "-") == Some(("digital", "ocean-" + token))
    ensures "ocean-" <= "ocean-" + token && ("ocean-" + token)[6..] == token
  {
    assert DIGITAL_OCEAN + "-" + token == "digital" + "-" + ("ocean-" + token);
    CutAtDash("digital", "ocean-" + token);
  }

  lemma ParsePlatformArchPrinted(platform: string, token: string, secureBoot: bool)
    requires ValidPlatform(platform) && ParseArch(token).Ok?
    ensures ParsePlatformArch(PrintPlatformArch(platform, token, secureBoot))
         == Ok(PlatformArch(platform, ParseArch(token).value, secureBoot))
  {
    hide Cut, CutSecureBoot, ParseArch;
    ArchTokenShape(token);
    CutSecureBootPrinted(platform + "-", token, secureBoot);
    if platform == DIGITAL_OCEAN {
      CutDigitalOcean(token);
    } else {
      CutAtDash(platform, token);
    }
  }

  lemma CutSecureBootPrefix(s: string)
    ensures CutSecureBoot(s).0 <= s
    ensures CutSecureBoot(s).1 ==> s == CutSecureBoot(s).0 + "-secureboot"
    ensures !CutSecureBoot(s).1 ==> s == CutSecureBoot(s).0
  {
  }

  lemma ParsePlatformArchSound(s: string)
    requires ParsePlatformArch(s).Ok?
    ensures var pa := ParsePlatformArch(s).value;
      && ValidPlatform(pa.platform)
      && ValidArch(pa.arch)
      && pa.platform + "-" <= s
  {
    hide Cut, CutSecureBoot;
    CutSecureBootPrefix(s);
    var base := CutSecureBoot(s).0;
    CutDashJoins(base);
    var (first, tail) := Cut(base, "-").value;
    if first == "digital" && "ocean-" <= tail {
      assert base == DIGITAL_OCEAN + "-" + tail[6..];
    } else {
      assert first + "-" <= base;
    }
  }

  /** A path that starts with a platform and a dash starts with a keyword only if the platform is that keyword. */
  lemma PlatformIsKeyword(platform: string, keyword: string, path: string)
    requires ValidPlatform(platform) && NoDash(keyword) && keyword != "digital"
    requires platform + "-" <= path && keyword + "-" <= path
    ensures platform == keyword
  {
    var y := path[|keyword| + 1..];
    assert path == keyword + "-" + y;
    if platform == DIGITAL_OCEAN {
      var z := path[|platform| + 1..];
      assert path == "digital" + "-" + ("ocean-" + z);
      FirstField("digital", "ocean-" + z, keyword, y);
    } else {
      var x := path[|platform| + 1..];
      assert path == platform + "-" + x;
      FirstField(platform, x, keyword, y);
    }
  }

  lemma NotKeyword(platform: string, keyword: string, path: string)
    requires ValidPlatform(platform) && NoDash(keyword) && keyword != "digital"
    requires platform + "-" <= path && platform != keyword
    ensures !(keyword + "-" <= path)
  {
    if keyword + "-" <= path {
      PlatformIsKeyword(platform, keyword, path);
    }
  }

  lemma NotLeading(platform: string, path: string)
    requires ValidPlatform(platform) && platform !in {"kernel", "cmdline"} && platform + "-" <= path
    ensures !("kernel-" <= path) && !("cmdline-" <= path)
  {
    NotKeyword(platform, "kernel", path);
    NotKeyword(platform, "cmdline", path);
    assert "kernel" + "-" == "kernel-" && "cmdline" + "-" == "cmdline-";
  }

  // ---------------------------------------------------------------- every accepted path is expressible

  lemma CutFormatsJoin(path: string)
    ensures path == CutOutFormat(path).0 + OutExtension(CutOutFormat(path).1)
    ensures CutDiskFormat(path).Some? ==>
      path == CutDiskFormat(path).value.0 + DiskExtension(CutDiskFormat(path).value.1)
  {
    hide HasSuffix;
    match CutOutFormat(path).1 {
      case OutRaw =>
      case OutTar => CutSuffixJoins(path, ".tar.gz");
      case OutGZ => CutSuffixJoins(path, ".gz");
      case OutXZ => CutSuffixJoins(path, ".xz");
      case OutZSTD => CutSuffixJoins(path, ".zst");
    }
    if CutDiskFormat(path).Some? {
      match CutDiskFormat(path).value.1 {
        case DiskRaw => CutSuffixJoins(path, ".raw");
        case DiskQCOW2 => CutSuffixJoins(path, ".qcow2");
        case DiskVPC => CutSuffixJoins(path, ".vhd");
        case DiskOVA => CutSuffixJoins(path, ".ova");
      }
    }
  }

  lemma CutFormatsArePrefixes(path: string)
    ensures CutOutFormat(path).0 <= path
    ensures CutOutFormat(path).1 == OutXZ ==> path == CutOutFormat(path).0 + ".xz"
    ensures CutDiskFormat(path).Some? ==> CutDiskFormat(path).value.0 <= path
  {
    hide CutOutFormat, CutDiskFormat;
    CutFormatsJoin(path);
  }

  lemma DiskSound(lib: Library, path: string)
    requires !("kernel-" <= path) && !("cmdline-" <= path) && !Bracketed(path, "initramfs-", ".xz")
    requires ParseDisk(lib, path).Ok?
    ensures Expressible(lib, ParseDisk(lib, path).value)
  {
    hide ParsePlatformArch, CutOutFormat, CutDiskFormat, Bracketed;
    var (uncompressed, outFormat) := CutOutFormat(path);
    CutFormatsArePrefixes(path);
    CutFormatsArePrefixes(uncompressed);
    var (base, diskFormat) := CutDiskFormat(uncompressed).value;
    ParsePlatformArchSound(base);
    var platform := ParsePlatformArch(base).value.platform;
    assert platform + "-" <= path;
    assert platform != "kernel" && platform != "cmdline" by {
      assert "kernel" + "-" == "kernel-" && "cmdline" + "-" == "cmdline-";
    }
    if platform == "initramfs" && outFormat == OutXZ {
      assert "initramfs" + "-" <= uncompressed;
      NotInitramfs(path, uncompressed);
    }
  }

  lemma NotInitramfs(path: string, uncompressed: string)
    requires path == uncompressed + ".xz" && !Bracketed(path, "initramfs-", ".xz")
    ensures !("initramfs-" <= uncompressed)
  {
  }

  lemma InstallerSound(path: string)
    requires !("kernel-" <= path) && !("cmdline-" <= path) && !Bracketed(path, "installer-", ".tar")
    requires PlatformInstaller(path)
    ensures var (platform, rest) := Cut(path, "-installer-").value;
      var r := ParsePlatformArch(platform + "-" + rest[..|rest| - 4]);
      r.Ok? ==> r.value.platform !in {"kernel", "cmdline", "installer"}
  {
    hide ParsePlatformArch;
    var (platform, rest) := Cut(path, "-installer-").value;
    var i := IndexOf(path, "-installer-");
    var joined := platform + "-" + rest[..|rest| - 4];
    var r := ParsePlatformArch(joined);
    if r.Ok? {
      var p := r.value.platform;
      ParsePlatformArchSound(joined);
      if NoDash(p) {
        assert p + "-" <= joined;
        assert |p| <= i by {
          assert joined[i] == '-';
        }
        assert path[i..i + 11] == "-installer-";
        assert path[i] == "-installer-"[0];
        assert joined[..i] == path[..i] && joined[i] == path[i];
        assert p + "-" <= path;
      }
    }
  }

  lemma PlatformFormSound(lib: Library, kind: OutputKind, path: string, body: string)
    requires kind in {Cmdline, ISO, UKI}
    requires kind == Cmdline || (body <= path && !("kernel-" <= path) && !("cmdline-" <= path))
    requires ParsePlatformArch(body).Ok?
    ensures Expressible(lib, FromPlatformArch(kind, ParsePlatformArch(body)).value)
  {
    hide ParsePlatformArch;
    ParsePlatformArchSound(body);
    if kind != Cmdline {
      assert ParsePlatformArch(body).value.platform + "-" <= path;
      assert "kernel" + "-" == "kernel-" && "cmdline" + "-" == "cmdline-";
    }
  }

  lemma SuffixBound(path: string, suffix: string)
    requires HasSuffix(path, suffix)
    ensures |suffix| <= |path|
  {
  }

  lemma PlatformInstallerSound(lib: Library, path: string)
    requires !("kernel-" <= path) && !("cmdline-" <= path) && !Bracketed(path, "installer-", ".tar")
    requires PlatformInstaller(path)
    ensures var (platform, rest) := Cut(path, "-installer-").value;
      var r := FromPlatformArch(Installer, ParsePlatformArch(platform + "-" + rest[..|rest| - 4]));
      r.Ok? ==> Expressible(lib, r.value)
  {
    hide ParsePlatformArch, Bracketed;
    var (platform, rest) := Cut(path, "-installer-").value;
    var joined := platform + "-" + rest[..|rest| - 4];
    InstallerSound(path);
    if ParsePlatformArch(joined).Ok? {
      ParsePlatformArchSound(joined);
    }
  }

  /** Every accepted path yields amd64 or arm64, and a profile the documented grammar can express. */
  lemma ParseSound(lib: Library, path: string)
    requires Parse(lib, path).Ok?
    ensures Expressible(lib, Parse(lib, path).value)
  {
    hide ParsePlatformArch, ParseDisk, Cut, CutSecureBoot, HasSuffix, Bracketed, PlatformInstaller, Expressible;
    if "kernel-" <= path {
      ArchFormSound(lib, Kernel, path[|"kernel-"|..], false);
    } else if "cmdline-" <= path {
      PlatformFormSound(lib, Cmdline, path, path[|"cmdline-"|..]);
    } else if Bracketed(path, "initramfs-", ".xz") {
      ArchFormSound(lib, Initramfs, Inner(path, "initramfs-", ".xz"), false);
    } else if HasSuffix(path, ".iso") {
      SuffixBound(path, ".iso");
      PlatformFormSound(lib, ISO, path, path[..|path| - |".iso"|]);
    } else if HasSuffix(path, "-uki.efi") {
      SuffixBound(path, "-uki.efi");
      PlatformFormSound(lib, UKI, path, path[..|path| - |"-uki.efi"|]);
    } else if Bracketed(path, "installer-", ".tar") {
      var (base, secureBoot) := CutSecureBoot(Inner(path, "installer-", ".tar"));
      ArchFormSound(lib, Installer, base, secureBoot);
    } else if PlatformInstaller(path) {
      PlatformInstallerSound(lib, path);
    } else {
      DiskSound(lib, path);
    }
  }

  lemma ArchFormSound(lib: Library, kind: OutputKind, token: string, secureBoot: bool)
    requires ParseArch(token).Ok?
    requires kind == Installer || (kind in {Kernel, Initramfs} && !secureBoot)
    ensures Expressible(lib, FromArch(kind, secureBoot, ParseArch(token)).value)
  {
  }

  // ---------------------------------------------------------------- every printed form parses back

  lemma SuffixParses(body: string, suffix: string)
    ensures HasSuffix(body + suffix, suffix) && (body + suffix)[..|body + suffix| - |suffix|] == body
  {
    CutSuffixConcat(body, suffix);
  }

  lemma CmdlinePrinted(lib: Library, body: string)
    ensures Parse(lib, "cmdline-" + body) == FromPlatformArch(Cmdline, ParsePlatformArch(body))
  {
    hide ParsePlatformArch;
    CutPrefixConcat("cmdline-", body);
    assert !("kernel-" <= "cmdline-" + body) by { assert ("cmdline-" + body)[0] == 'c'; }
  }

  lemma ArchFormsPrinted(lib: Library, token: string)
    requires ParseArch(token).Ok?
    ensures Parse(lib, "kernel-" + token) == FromArch(Kernel, false, ParseArch(token))
    ensures Parse(lib, "initramfs-" + (token + ".xz")) == FromArch(Initramfs, false, ParseArch(token))
  {
    CutPrefixConcat("kernel-", token);
    var path := "initramfs-" + (token + ".xz");
    assert !("kernel-" <= path) && !("cmdline-" <= path) by { assert path[0] == 'i'; }
    CutPrefixConcat("initramfs-", token + ".xz");
    SuffixParses(token, ".xz");
    assert Inner(path, "initramfs-", ".xz") == token;
  }

  lemma IsoPrinted(lib: Library, platform: string, body: string)
    requires ValidPlatform(platform) && platform !in {"kernel", "cmdline"} && platform + "-" <= body
    ensures Parse(lib, body + ".iso") == FromPlatformArch(ISO, ParsePlatformArch(body))
  {
    var path := body + ".iso";
    NotLeading(platform, path);
    SuffixParses(body, ".iso");
    EndsWith(path, "initramfs-", ".xz", 0);
  }

  /** A different character `k` places before the end rules out a bracketed form. */
  lemma EndsWith(path: string, prefix: string, suffix: string, k: nat)
    requires k < |path| && k < |suffix| && path[|path| - 1 - k] != suffix[|suffix| - 1 - k]
    ensures !Bracketed(path, prefix, suffix) && !HasSuffix(path, suffix)
  {
    if |suffix| <= |path| {
      assert path[|path| - |suffix|..][|suffix| - 1 - k] == path[|path| - 1 - k];
    }
    if prefix <= path {
      var tail := path[|prefix|..];
      if |suffix| <= |tail| {
        assert tail[|tail| - |suffix|..][|suffix| - 1 - k] == path[|path| - 1 - k];
      }
    }
  }

  lemma UkiPrinted(lib: Library, platform: string, body: string)
    requires ValidPlatform(platform) && platform !in {"kernel", "cmdline"} && platform + "-" <= body
    ensures Parse(lib, body + "-uki.efi") == FromPlatformArch(UKI, ParsePlatformArch(body))
  {
    var path := body + "-uki.efi";
    NotLeading(platform, path);
    SuffixParses(body, "-uki.efi");
    EndsWith(path, "initramfs-", ".xz", 0);
    EndsWith(path, "", ".iso", 0);
  }

  lemma InstallerPrinted(lib: Library, platform: string, body: string)
    requires ValidPlatform(platform) && platform !in {"kernel", "cmdline", "installer"}
    requires ParsePlatformArch(platform + "-" + body).Ok?
    ensures Parse(lib, platform + "-installer-" + (body + ".tar"))
         == FromPlatformArch(Installer, ParsePlatformArch(platform + "-" + body))
  {
    hide ParsePlatformArch;
    var rest := body + ".tar";
    var path := platform + "-installer-" + rest;
    assert path == platform + "-" + ("installer-" + rest);
    NotLeading(platform, path);
    NotKeyword(platform, "installer", path);
    assert "installer" + "-" == "installer-";
    CutAtInstaller(platform, rest);
    SuffixParses(body, ".tar");
    assert path[|path| - 1] == 'r';
    EndsWith(path, "initramfs-", ".xz", 0);
    EndsWith(path, "", ".iso", 0);
    EndsWith(path, "", "-uki.efi", 0);
  }

  lemma CutAtInstaller(platform: string, rest: string)
    requires ValidPlatform(platform)
    ensures Cut(platform + "-installer-" + rest, "-installer-") == Some((platform, rest))
  {
    var sep := "-installer-";
    var path := platform + sep + rest;
    assert path[|platform|..|platform| + |sep|] == sep;
    var i := IndexOf(path, sep);
    assert 0 <= i <= |platform| by { assert At(path, |platform|, sep); }
    NoEarlierInstaller(platform, rest, i);
    assert path[..i] == platform && path[i + |sep|..] == rest;
  }

  lemma NoEarlierInstaller(platform: string, rest: string, i: nat)
    requires ValidPlatform(platform) && i <= |platform|
    requires At(platform + "-installer-" + rest, i, "-installer-")
    ensures i == |platform|
  {
    hide IndexOf;
    var path := platform + "-installer-" + rest;
    assert path[i] == path[i..i + |"-installer-"|][0] == '-';
    assert path[i + 1] == path[i..i + |"-installer-"|][1] == 'i';
  }

  lemma BareInstallerPrinted(lib: Library, token: string, secureBoot: bool)
    requires ParseArch(token).Ok?
    ensures Parse(lib, PrintBareInstaller(token, secureBoot))
         == Ok(Profile(Installer, OutRaw, METAL, ParseArch(token).value, secureBoot, None))
  {
    hide CutSecureBoot, ParseArch, Bracketed, HasSuffix, PlatformInstaller;
    var body := token + SecureBootSuffix(secureBoot);
    BracketedPrinted("installer-", body, ".tar");
    CutSecureBootPrinted("", token, secureBoot);
    assert "" + token == token;
    NotOtherForms(body);
  }

  lemma BracketedPrinted(prefix: string, body: string, suffix: string)
    ensures Bracketed(prefix + (body + suffix), prefix, suffix)
    ensures Inner(prefix + (body + suffix), prefix, suffix) == body
  {
    CutPrefixConcat(prefix, body + suffix);
    SuffixParses(body, suffix);
  }

  lemma NotOtherForms(body: string)
    ensures var path := "installer-" + (body + ".tar");
      && !("kernel-" <= path) && !("cmdline-" <= path) && !Bracketed(path, "initramfs-", ".xz")
      && !HasSuffix(path, ".iso") && !HasSuffix(path, "-uki.efi")
  {
    hide HasSuffix;
    var path := "installer-" + (body + ".tar");
    assert path[0] == 'i' && path[|path| - 1] == 'r';
    EndsWith(path, "initramfs-", ".xz", 0);
    EndsWith(path, "", ".iso", 0);
    EndsWith(path, "", "-uki.efi", 0);
  }

  lemma CutFormatsPrinted(base: string, diskFormat: DiskFormat, outFormat: OutFormat)
    ensures var path := base + DiskExtension(diskFormat) + OutExtension(outFormat);
      && CutOutFormat(path) == (base + DiskExtension(diskFormat), outFormat)
      && CutDiskFormat(base + DiskExtension(diskFormat)) == Some((base, diskFormat))
  {
    CutDiskFormatPrinted(base, diskFormat);
    CutOutFormatPrinted(base + DiskExtension(diskFormat), outFormat);
  }

  lemma CutDiskFormatPrinted(base: string, diskFormat: DiskFormat)
    ensures CutDiskFormat(base + DiskExtension(diskFormat)) == Some((base, diskFormat))
  {
    var path := base + DiskExtension(diskFormat);
    SuffixParses(base, DiskExtension(diskFormat));
    match diskFormat {
      case DiskRaw =>
      case DiskQCOW2 => EndsWith(path, "", ".raw", 0);
      case DiskVPC =>
        EndsWith(path, "", ".raw", 0);
        EndsWith(path, "", ".qcow2", 0);
      case DiskOVA =>
        EndsWith(path, "", ".raw", 0);
        EndsWith(path, "", ".qcow2", 0);
        EndsWith(path, "", ".vhd", 0);
    }
  }

  lemma CutOutFormatPrinted(image: string, outFormat: OutFormat)
    requires image != "" && image[|image| - 1] in {'w', '2', 'd', 'a'}
    ensures CutOutFormat(image + OutExtension(outFormat)) == (image, outFormat)
  {
    hide HasSuffix;
    var path := image + OutExtension(outFormat);
    SuffixParses(image, OutExtension(outFormat));
    if outFormat == OutRaw {
      assert path == image;
      EndsWith(path, "", ".tar.gz", 0);
      EndsWith(path, "", ".gz", 0);
      EndsWith(path, "", ".xz", 0);
      EndsWith(path, "", ".zst", 0);
    } else if outFormat == OutGZ {
      EndsWith(path, "", ".tar.gz", 3);
    } else if outFormat == OutXZ {
      EndsWith(path, "", ".tar.gz", 1);
      EndsWith(path, "", ".gz", 1);
    } else if outFormat == OutZSTD {
      EndsWith(path, "", ".tar.gz", 0);
      EndsWith(path, "", ".gz", 0);
      EndsWith(path, "", ".xz", 0);
    }
  }

  lemma DiskPrinted(lib: Library, platform: string, base: string, diskFormat: DiskFormat, outFormat: OutFormat)
    requires ValidPlatform(platform) && platform !in {"kernel", "cmdline"} && platform + "-" <= base
    requires !(platform == "initramfs" && outFormat.OutXZ?)
    ensures var path := base + DiskExtension(diskFormat) + OutExtension(outFormat);
      Parse(lib, path) == ParseDisk(lib, path)
  {
    hide ParseDisk, ParsePlatformArch;
    var path := base + DiskExtension(diskFormat) + OutExtension(outFormat);
    assert platform + "-" <= path;
    NotLeading(platform, path);
    NotKeyword2(platform, path, outFormat);
    DiskEnding(base, diskFormat, outFormat);
  }

  lemma NotKeyword2(platform: string, path: string, outFormat: OutFormat)
    requires ValidPlatform(platform) && platform + "-" <= path
    requires !(platform == "initramfs" && outFormat.OutXZ?)
    ensures "initramfs-" <= path ==> !outFormat.OutXZ?
  {
    assert "initramfs" + "-" == "initramfs-";
    if platform != "initramfs" {
      NotKeyword(platform, "initramfs", path);
    }
  }

  /** No disk image name ends like any of the other forms. */
  lemma DiskEnding(base: string, diskFormat: DiskFormat, outFormat: OutFormat)
    ensures var path := base + DiskExtension(diskFormat) + OutExtension(outFormat);
      && !HasSuffix(path, ".iso") && !HasSuffix(path, "-uki.efi")
      && !Bracketed(path, "installer-", ".tar") && !PlatformInstaller(path)
      && (!outFormat.OutXZ? ==> !Bracketed(path, "initramfs-", ".xz"))
  {
    hide PlatformInstaller, HasSuffix, Bracketed, DiskExtension, OutExtension;
    var path := base + DiskExtension(diskFormat) + OutExtension(outFormat);
    DiskLast(base, diskFormat, outFormat);
    EndsWith(path, "", ".iso", 0);
    EndsWith(path, "", "-uki.efi", 0);
    EndsWith(path, "installer-", ".tar", 0);
    NotPlatformInstaller(path);
    if outFormat in {OutTar, OutGZ} {
      EndsWith(path, "initramfs-", ".xz", 1);
    } else if outFormat != OutXZ {
      EndsWith(path, "initramfs-", ".xz", 0);
    }
  }

  lemma DiskLast(base: string, diskFormat: DiskFormat, outFormat: OutFormat)
    ensures var path := base + DiskExtension(diskFormat) + OutExtension(outFormat);
      && |path| >= 4
      && path[|path| - 1] in {'w', '2', 'd', 'a', 'z', 't'}
      && (outFormat in {OutTar, OutGZ} ==> path[|path| - 2] == 'g')
      && (outFormat !in {OutTar, OutGZ, OutXZ} ==> path[|path| - 1] != 'z')
  {
  }

  lemma NotPlatformInstaller(path: string)
    requires path != "" && path[|path| - 1] != 'r'
    ensures !PlatformInstaller(path)
  {
    if Cut(path, "-installer-").Some? {
      var i := IndexOf(path, "-installer-");
      var rest := Cut(path, "-installer-").value.1;
      assert rest != "" ==> rest[|rest| - 1] == path[|path| - 1];
    }
  }

  /** Printing a profile with any spelling of its architecture and parsing the result gives the profile back. */
  lemma ParsePrint(lib: Library, p: Profile, token: string)
    requires Expressible(lib, p) && ParseArch(token) == Ok(p.arch)
    ensures Parse(lib, PrintAs(p, token)) == Ok(p)
  {
    hide ParsePlatformArch, Parse;
    var body := PrintPlatformArch(p.platform, token, p.secureBoot);
    ParsePlatformArchPrinted(p.platform, token, p.secureBoot);
    assert p.platform + "-" <= body;
    match p.kind {
      case Kernel => ArchFormsPrinted(lib, token);
      case Initramfs => ArchFormsPrinted(lib, token);
      case Cmdline => CmdlinePrinted(lib, body);
      case ISO => IsoPrinted(lib, p.platform, body);
      case UKI => UkiPrinted(lib, p.platform, body);
      case Installer =>
        var tail := token + SecureBootSuffix(p.secureBoot);
        assert p.platform + "-" + tail == body;
        InstallerPrinted(lib, p.platform, tail);
      case Image =>
        var options := p.imageOptions.value;
        DiskPrinted(lib, p.platform, body, options.diskFormat, p.outFormat);
        CutFormatsPrinted(body, options.diskFormat, p.outFormat);
    }
  }

  // ---------------------------------------------------------------- main results

  /** Parsing has a normal form: printing what a path parses to, and parsing again, changes nothing. */
  lemma NormalForm(lib: Library, path: string)
    requires Parse(lib, path).Ok?
    ensures Parse(lib, Print(Parse(lib, path).value)) == Parse(lib, path)
    ensures ValidArch(Parse(lib, path).value.arch)
  {
    hide Parse;
    ParseSound(lib, path);
    var p := Parse(lib, path).value;
    assert ParseArch(p.arch) == Ok(p.arch);
    ParsePrint(lib, p, p.arch);
  }

  /** The parser's image is exactly the expressible profiles. */
  lemma ImageOfParse(lib: Library, p: Profile)
    ensures (exists path :: Parse(lib, path) == Ok(p)) <==> Expressible(lib, p)
  {
    hide Parse;
    if Expressible(lib, p) {
      ParsePrint(lib, p, p.arch);
    }
    forall path | Parse(lib, path) == Ok(p) ensures Expressible(lib, p) {
      ParseSound(lib, path);
    }
  }

  /** The profile of an installer image served by the registry. */
  function InstallerProfile(secureBoot: bool, arch: string, platform: string): Profile {
    Profile(Installer, OutRaw, if platform == "" then METAL else platform, arch, secureBoot, None)
  }

  /** The artifact path of the same installer. */
  function InstallerPath(secureBoot: bool, arch: string, platform: string): string {
    if platform == "" then PrintBareInstaller(arch, secureBoot)
    else platform + "-installer-" + (arch + SecureBootSuffix(secureBoot) + ".tar")
  }

  /** The registry and the artifact endpoint build the same installer exactly for the platforms that the path
  grammar can name. */
  lemma InstallerProfileIsParsedPath(lib: Library, secureBoot: bool, arch: string, platform: string)
    requires ValidArch(arch)
    ensures Parse(lib, InstallerPath(secureBoot, arch, platform)) == Ok(InstallerProfile(secureBoot, arch, platform))
       <==> ValidPlatform(platform) && platform !in {"kernel", "cmdline", "installer"}
  {
    hide Parse;
    var p := InstallerProfile(secureBoot, arch, platform);
    var path := InstallerPath(secureBoot, arch, platform);
    if platform == "" {
      BareInstallerPrinted(lib, arch, secureBoot);
    } else {
      assert path == PrintAs(p, arch);
      if ValidPlatform(platform) && platform !in {"kernel", "cmdline", "installer"} {
        ParsePrint(lib, p, arch);
      }
      if Parse(lib, path) == Ok(p) {
        ParseSound(lib, path);
      }
    }
  }

  datatype RequestedImage = RequestedImage(platform: string, secureBoot: bool)

  /** The platform and secure boot choice of a registry image name. */
  function GetRequestedImage(image: string): Option<RequestedImage> {
    if image == "installer" then Some(RequestedImage("", false))
    else if image == "installer-secureboot" then Some(RequestedImage("", true))
    else if HasSuffix(image, "-installer-secureboot") then
      Some(RequestedImage(image[..|image| - |"-installer-secureboot"|], true))
    else if HasSuffix(image, "-installer") then
      Some(RequestedImage(image[..|image| - |"-installer"|], false))
    else None
  }

  function ImageName(img: RequestedImage): string {
    (if img.platform == "" then "installer" else img.platform + "-installer") + SecureBootSuffix(img.secureBoot)
  }

  /** Every platform and secure boot choice has an image name that is read back as that choice, whatever the
  platform looks like. */
  lemma ImageNameRoundTrip(img: RequestedImage)
    ensures GetRequestedImage(ImageName(img)) == Some(img)
  {
    var name := ImageName(img);
    if img.platform != "" {
      if img.secureBoot {
        assert name == img.platform + "-installer-secureboot";
        CutSuffixConcat(img.platform, "-installer-secureboot");
        assert name[|name| - 21] == '-';
      } else {
        assert name == img.platform + "-installer";
        CutSuffixConcat(img.platform, "-installer");
        DifferentEnding(name, "-installer-secureboot", 0);
        assert name[|name| - 10] == '-';
      }
    }
  }

  // ---------------------------------------------------------------- sidecars (internal/profile/artifact_path.go)

  datatype Sidecar = NoSidecar | SHA256 | SHA512 | Signature

  function SidecarSuffix(s: Sidecar): string {
    match s
    case NoSidecar => ""
    case SHA256 => ".sha256"
    case SHA512 => ".sha512"
    case Signature => ".sigstore.json"
  }

  function SplitArtifactPath(path: string): (string, Sidecar) {
    if HasSuffix(path, ".sigstore.json") then (path[..|path| - 14], Signature)
    else if HasSuffix(path, ".sha512") then (path[..|path| - 7], SHA512)
    else if HasSuffix(path, ".sha256") then (path[..|path| - 7], SHA256)
    else (path, NoSidecar)
  }

  function ParseArtifactPath(lib: Library, path: string): Result<Profile> {
    Parse(lib, SplitArtifactPath(path).0)
  }

  /** What the image service makes of a requested file name: it splits a sidecar off, and the parser splits again. */
  function ResolveArtifact(lib: Library, path: string): Result<(Profile, Sidecar)> {
    var (base, sidecar) := SplitArtifactPath(path);
    match ParseArtifactPath(lib, base)
    case Ok(p) => Ok((p, sidecar))
    case Err(e) => Err(e)
  }

  lemma SplitConcat(base: string, s: Sidecar)
    requires s != NoSidecar
    ensures SplitArtifactPath(base + SidecarSuffix(s)) == (base, s)
  {
    var path := base + SidecarSuffix(s);
    CutSuffixConcat(base, SidecarSuffix(s));
    match s {
      case Signature =>
      case SHA512 => EndsWith(path, "", ".sigstore.json", 0);
      case SHA256 =>
        EndsWith(path, "", ".sigstore.json", 0);
        EndsWith(path, "", ".sha512", 0);
    }
  }

  /** The last two characters leave no room for a sidecar suffix. */
  predicate PlainEnding(path: string) {
    && |path| >= 2
    && var last, before := path[|path| - 1], path[|path| - 2];
       && last in {'4', '6', 't', 'z', 'o', 'i', 'r', 'w', '2', 'd', 'a'}
       && (last == '6' ==> before == '8')
       && (last == '2' ==> before == 'w')
  }

  lemma EndingOf(a: string, b: string)
    requires PlainEnding(b)
    ensures PlainEnding(a + b)
  {
    assert (a + b)[|a + b| - 1] == b[|b| - 1] && (a + b)[|a + b| - 2] == b[|b| - 2];
  }

  lemma DiskPathEnding(lib: Library, path: string)
    requires ParseDisk(lib, path).Ok?
    ensures PlainEnding(path)
  {
    hide ParsePlatformArch, PlainEnding, CutOutFormat, CutDiskFormat, DiskExtension, OutExtension;
    var (uncompressed, outFormat) := CutOutFormat(path);
    var (base, diskFormat) := CutDiskFormat(uncompressed).value;
    CutFormatsJoin(path);
    CutFormatsJoin(uncompressed);
    FormatEndings(diskFormat, outFormat);
    EndingOf(base, DiskExtension(diskFormat));
    if outFormat != OutRaw {
      EndingOf(uncompressed, OutExtension(outFormat));
    } else {
      NoExtension();
      assert path == uncompressed;
    }
  }

  lemma PlatformArchEnding(body: string)
    requires ParsePlatformArch(body).Ok?
    ensures PlainEnding(body)
  {
    hide Cut, CutSecureBoot, PlainEnding, ParseArch;
    CutSecureBootPrefix(body);
    var (base, secureBoot) := CutSecureBoot(body);
    if secureBoot {
      FixedEndings();
      EndingOf(base, "-secureboot");
    } else {
      CutDashJoins(base);
      var (first, tail) := Cut(base, "-").value;
      if first == "digital" && "ocean-" <= tail {
        ArchEnding(tail[6..]);
        EndingOf("ocean-", tail[6..]);
        assert tail == "ocean-" + tail[6..];
      } else {
        ArchEnding(tail);
      }
      EndingOf(first + "-", tail);
    }
  }

  lemma NoExtension() ensures OutExtension(OutRaw) == "" {}

  lemma FormatEndings(diskFormat: DiskFormat, outFormat: OutFormat)
    ensures PlainEnding(DiskExtension(diskFormat))
    ensures outFormat != OutRaw ==> PlainEnding(OutExtension(outFormat))
  {
  }

  lemma FixedEndings()
    ensures PlainEnding(".xz") && PlainEnding(".iso") && PlainEnding("-uki.efi") && PlainEnding(".tar")
    ensures PlainEnding("-secureboot")
  {
  }

  lemma BracketedEnding(path: string, prefix: string, suffix: string)
    requires Bracketed(path, prefix, suffix) && PlainEnding(suffix)
    ensures PlainEnding(path)
  {
    EndingOf(path[..|path| - |suffix|], suffix);
    assert path == path[..|path| - |suffix|] + suffix;
  }

  lemma AcceptedEnding(lib: Library, path: string)
    requires Parse(lib, path).Ok?
    ensures PlainEnding(path)
  {
    hide ParsePlatformArch, ParseDisk, Cut, CutSecureBoot, PlainEnding, Bracketed, HasSuffix;
    FixedEndings();
    if "kernel-" <= path {
      ArchEnding(path[|"kernel-"|..]);
      EndingOf("kernel-", path[|"kernel-"|..]);
      assert path == "kernel-" + path[|"kernel-"|..];
    } else if "cmdline-" <= path {
      PlatformArchEnding(path[|"cmdline-"|..]);
      EndingOf("cmdline-", path[|"cmdline-"|..]);
      assert path == "cmdline-" + path[|"cmdline-"|..];
    } else if Bracketed(path, "initramfs-", ".xz") {
      BracketedEnding(path, "initramfs-", ".xz");
    } else if HasSuffix(path, ".iso") {
      SuffixEnding(path, ".iso");
    } else if HasSuffix(path, "-uki.efi") {
      SuffixEnding(path, "-uki.efi");
    } else if Bracketed(path, "installer-", ".tar") {
      BracketedEnding(path, "installer-", ".tar");
    } else if PlatformInstaller(path) {
      var (platform, rest) := Cut(path, "-installer-").value;
      AfterCut(path, "-installer-");
      SuffixEnding(rest, ".tar");
      EndingOf(platform + "-installer-", rest);
    } else {
      DiskPathEnding(lib, path);
    }
  }

  lemma SuffixEnding(path: string, suffix: string)
    requires HasSuffix(path, suffix) && PlainEnding(suffix)
    ensures PlainEnding(path)
  {
    CutSuffixJoins(path, suffix);
    EndingOf(path[..|path| - |suffix|], suffix);
  }

  lemma ArchEnding(token: string)
    requires ParseArch(token).Ok?
    ensures PlainEnding(token)
  {
  }

  lemma AfterCut(s: string, sep: string)
    requires Cut(s, sep).Some?
    ensures s == Cut(s, sep).value.0 + sep + Cut(s, sep).value.1
  {
    var i := IndexOf(s, sep);
    assert s == s[..i] + s[i..i + |sep|] + s[i + |sep|..];
  }

  /** No artifact path ends in a sidecar suffix. */
  lemma ArtifactsHaveNoSidecar(lib: Library, path: string)
    requires Parse(lib, path).Ok?
    ensures SplitArtifactPath(path) == (path, NoSidecar)
  {
    hide Parse;
    AcceptedEnding(lib, path);
    if path[|path| - 1] == '6' {
      EndsWith(path, "", ".sha256", 1);
    }
    if path[|path| - 1] == '2' {
      EndsWith(path, "", ".sha512", 1);
    }
  }

  lemma SplitJoins(path: string)
    ensures var (base, s) := SplitArtifactPath(path); path == base + SidecarSuffix(s)
  {
  }

  // ---------------------------------------------------------------- disk images

  /** A disk image has the format it is named for; the platform's own size and options, if it has any; and else the
  default size, and a cluster size if it is a QCOW2 image. */
  lemma DiskOptionsAre(lib: Library, platform: string, format: DiskFormat)
    ensures var options := DiskOptions(lib, platform, format);
      && options.diskFormat == format
      && (platform in lib.platforms && lib.platforms[platform].diskSize != 0 ==>
            options.diskSize == lib.platforms[platform].diskSize)
      && (platform !in lib.platforms || lib.platforms[platform].diskSize == 0 ==>
            options.diskSize == lib.defaultRawDiskSize)
      && (platform in lib.platforms && lib.platforms[platform].diskFormatOptions != "" ==>
            options.diskFormatOptions == lib.platforms[platform].diskFormatOptions)
      && (platform !in lib.platforms || lib.platforms[platform].diskFormatOptions == "" ==>
            options.diskFormatOptions == if format == DiskQCOW2 then "cluster_size=8k" else "")
  {
  }
}
