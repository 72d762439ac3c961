/** The language of artifact paths: what the API documents (frontend/src/api/schema.d.ts), what the parser accepts
beyond it (internal/profile/profile.go), and what the image service makes of checksum and signature suffixes
(internal/profile/artifact_path.go, internal/asset/image_service.go). */
module PathLanguage {
  import opened Strings
  import opened PathParser

  // ---------------------------------------------------------------- the documented forms and the odd ones

  /** `path` is the form of `p` with its architecture spelled `token`. */
  predicate IsForm(lib: Library, path: string, p: Profile, token: string) {
    Expressible(lib, p) && ParseArch(token) == Ok(p.arch) && path == PrintAs(p, token)
  }

  predicate IsBareInstaller(path: string, token: string, secureBoot: bool) {
    ParseArch(token).Ok? && path == PrintBareInstaller(token, secureBoot)
  }

  /** One of the forms that the API lists, of a platform that has a name. */
  ghost predicate Documented(lib: Library, path: string) {
    || (exists p, token :: IsForm(lib, path, p, token) && p.platform != "")
    || (exists token, secureBoot :: IsBareInstaller(path, token, secureBoot))
  }

  /** One of these forms with an empty platform. */
  ghost predicate Nameless(lib: Library, path: string) {
    exists p, token :: IsForm(lib, path, p, token) && p.platform == ""
  }

  /** `<platform>-<arch>-installer-secureboot.tar`. */
  predicate IsSplitSecureBoot(path: string, platform: string, token: string) {
    && ValidPlatform(platform) && platform !in {"kernel", "cmdline", "installer"} && ParseArch(token).Ok?
    && path == platform + "-" + token + "-installer-" + ("secureboot" + ".tar")
  }

  /** `digital-installer-ocean-<arch>[-secureboot].tar`. */
  predicate IsSplitOcean(path: string, token: string, secureBoot: bool) {
    && ParseArch(token).Ok?
    && path == "digital" + "-installer-" + (("ocean-" + token + SecureBootSuffix(secureBoot)) + ".tar")
  }

  /** The parser joins what stands before and after "-installer-" with a dash, so that it also accepts an installer
  whose "-installer-" stands at another dash than the one before the architecture. */
  ghost predicate SplitElsewhere(path: string) {
    || (exists platform, token :: IsSplitSecureBoot(path, platform, token))
    || (exists token, secureBoot :: IsSplitOcean(path, token, secureBoot))
  }

  ghost predicate Odd(lib: Library, path: string) { Nameless(lib, path) || SplitElsewhere(path) }

  // ---------------------------------------------------------------- the odd forms are accepted

  lemma ParsedInstaller(lib: Library, path: string, x: string, z: string, first: string)
    requires path == x + "-installer-" + (z + ".tar") && Cut(path, "-installer-") == Some((x, z + ".tar"))
    requires ValidPlatform(first) && first !in {"kernel", "cmdline", "installer"} && first + "-" <= path
    ensures Parse(lib, path) == FromPlatformArch(Installer, ParsePlatformArch(x + "-" + z))
  {
    hide ParsePlatformArch, ParseDisk, Cut;
    NotLeading(first, path);
    NotKeyword(first, "installer", path);
    assert "installer" + "-" == "installer-";
    SuffixParses(z, ".tar");
    assert path[|path| - 1] == 'r';
    EndsWith(path, "initramfs-", ".xz", 0);
    EndsWith(path, "", ".iso", 0);
    EndsWith(path, "", "-uki.efi", 0);
  }

  /** A text is cut where "-installer-" first occurs. */
  lemma CutFirst(x: string, rest: string)
    requires forall i :: 0 <= i < |x| && x[i] == '-' ==> !(InAt(x, i))
    ensures Cut(x + "-installer-" + rest, "-installer-") == Some((x, rest))
  {
    var sep := "-installer-";
    var path := x + sep + rest;
    assert path[|x|..|x| + |sep|] == sep;
    var i := IndexOf(path, sep);
    assert 0 <= i <= |x| by { assert At(path, |x|, sep); }
    assert path[i..i + |sep|] == sep;
    assert path[i] == '-' && path[i + 1] == 'i' && path[i + 2] == 'n' by {
      assert path[i..i + |sep|][0] == '-' && path[i..i + |sep|][1] == 'i' && path[i..i + |sep|][2] == 'n';
    }
    assert i == |x|;
    assert path[..i] == x && path[i + |sep|..] == rest;
  }

  /** What follows the dash at `i` may begin like "installer": it says "in", or ends before it could. */
  predicate InAt(x: string, i: nat)
    requires i < |x|
  {
    i + 2 >= |x| || (x[i + 1] == 'i' && x[i + 2] == 'n')
  }

  lemma TokenIsNotIn(token: string)
    requires ParseArch(token).Ok?
    ensures |token| >= 4 && !(token[0] == 'i' && token[1] == 'n')
  {
  }

  lemma SplitSecureBootParses(lib: Library, path: string, platform: string, token: string)
    requires IsSplitSecureBoot(path, platform, token)
    ensures Parse(lib, path)
         == Ok(Profile(Installer, OutRaw, platform, ParseArch(token).value, true, None))
  {
    var x := platform + "-" + token;
    NoEarlierCut(platform, token);
    hide ParseArch, ParsePlatformArch, InAt, Parse, ParseDisk;
    CutFirst(x, "secureboot" + ".tar");
    StartsWithPlatform(platform, token, "-installer-" + ("secureboot" + ".tar"));
    assert path == x + ("-installer-" + ("secureboot" + ".tar"));
    ParsedInstaller(lib, path, x, "secureboot", platform);
    ParsePlatformArchPrinted(platform, token, true);
    SecureBootJoins(x);
  }

  lemma SecureBootJoins(x: string)
    ensures x + "-" + "secureboot" == x + "-secureboot"
  {
  }

  lemma StartsWithPlatform(platform: string, token: string, rest: string)
    ensures platform + "-" <= platform + "-" + token + rest
  {
  }

  /** Neither a platform nor an architecture contains the beginning of "-installer-". */
  lemma NoEarlierCut(platform: string, token: string)
    requires ValidPlatform(platform) && ParseArch(token).Ok?
    ensures var x := platform + "-" + token; forall i :: 0 <= i < |x| && x[i] == '-' ==> !InAt(x, i)
  {
    ArchTokenShape(token);
    TokenIsNotIn(token);
    hide ParseArch;
    var x := platform + "-" + token;
    assert forall k :: |platform| < k < |x| ==> x[k] == token[k - |platform| - 1];
    forall i | 0 <= i < |x| && x[i] == '-' ensures !InAt(x, i) {
      if i < |platform| {
        assert x[i] == platform[i];
        assert x[8] == DIGITAL_OCEAN[8] == 'o';
      } else {
        assert x[i + 1] == token[0] && x[i + 2] == token[1];
      }
    }
  }

  lemma SplitOceanParses(lib: Library, path: string, token: string, secureBoot: bool)
    requires IsSplitOcean(path, token, secureBoot)
    ensures Parse(lib, path)
         == Ok(Profile(Installer, OutRaw, DIGITAL_OCEAN, ParseArch(token).value, secureBoot, None))
  {
    hide ParseArch, ParsePlatformArch, Parse, ParseDisk, Cut;
    var z := "ocean-" + token + SecureBootSuffix(secureBoot);
    CutFirst("digital", z + ".tar");
    OceanStart(z + ".tar");
    ParsedInstaller(lib, path, "digital", z, "digital");
    ParsePlatformArchPrinted(DIGITAL_OCEAN, token, secureBoot);
    OceanJoins(token, SecureBootSuffix(secureBoot));
  }

  lemma OceanStart(rest: string)
    ensures "digital" + "-" <= "digital" + "-installer-" + rest
  {
    assert "-installer-" == "-" + "installer-";
  }

  lemma OceanJoins(token: string, tail: string)
    ensures "digital" + "-" + ("ocean-" + token + tail) == DIGITAL_OCEAN + "-" + token + tail
  {
    assert DIGITAL_OCEAN + "-" == "digital" + "-" + "ocean-";
  }

  // ---------------------------------------------------------------- what is accepted has one of the forms

  /** The spelling of the architecture in an accepted platform and architecture. */
  lemma PlatformArchText(s: string) returns (token: string)
    requires ParsePlatformArch(s).Ok?
    ensures var pa := ParsePlatformArch(s).value;
      ParseArch(token) == Ok(pa.arch) && s == PrintPlatformArch(pa.platform, token, pa.secureBoot)
  {
    hide Cut, CutSecureBoot, ParseArch;
    CutSecureBootPrefix(s);
    var base := CutSecureBoot(s).0;
    CutDashJoins(base);
    var (first, tail) := Cut(base, "-").value;
    if first == "digital" && "ocean-" <= tail {
      token := tail[6..];
      assert base == DIGITAL_OCEAN + "-" + token;
    } else {
      token := tail;
      assert base == first + "-" + token;
    }
    assert s == base + SecureBootSuffix(CutSecureBoot(s).1);
  }

  lemma FormOf(lib: Library, path: string, p: Profile, token: string)
    requires IsForm(lib, path, p, token)
    ensures Documented(lib, path) || Odd(lib, path)
  {
    hide IsForm;
    if p.platform == "" {
      assert Nameless(lib, path);
    }
  }

  /** A platform form other than an installer's. */
  lemma BodyForm(lib: Library, path: string, kind: OutputKind, body: string)
    requires Parse(lib, path) == FromPlatformArch(kind, ParsePlatformArch(body)) && Parse(lib, path).Ok?
    requires (kind == Cmdline && path == "cmdline-" + body) || (kind == ISO && path == body + ".iso")
      || (kind == UKI && path == body + "-uki.efi")
    ensures Documented(lib, path) || Odd(lib, path)
  {
    hide Parse, ParsePlatformArch, Expressible;
    ParseSound(lib, path);
    var token := PlatformArchText(body);
    FormOf(lib, path, Parse(lib, path).value, token);
  }

  lemma DiskForm(lib: Library, path: string)
    requires Parse(lib, path) == ParseDisk(lib, path) && Parse(lib, path).Ok?
    ensures Documented(lib, path) || Odd(lib, path)
  {
    ParseSound(lib, path);
    hide Parse, ParseDisk, Expressible, ParseArch, PrintAs, PrintPlatformArch, DiskExtension, OutExtension;
    var token := DiskText(lib, path);
    DiskPrint(Parse(lib, path).value, token);
    FormOf(lib, path, Parse(lib, path).value, token);
  }

  lemma DiskPrint(p: Profile, token: string)
    requires p.kind == Image && p.imageOptions.Some?
    ensures PrintAs(p, token) == PrintPlatformArch(p.platform, token, p.secureBoot)
                               + DiskExtension(p.imageOptions.value.diskFormat) + OutExtension(p.outFormat)
  {
    hide PrintPlatformArch, DiskExtension, OutExtension;
  }

  lemma InstallerPrint(p: Profile, token: string)
    requires p.kind == Installer
    ensures PrintAs(p, token) == p.platform + "-installer-" + (token + SecureBootSuffix(p.secureBoot) + ".tar")
  {
    hide PrintPlatformArch, DiskExtension, OutExtension;
  }

  lemma DiskText(lib: Library, path: string) returns (token: string)
    requires ParseDisk(lib, path).Ok?
    ensures var p := ParseDisk(lib, path).value;
      && p.kind == Image && p.imageOptions.Some? && ParseArch(token) == Ok(p.arch)
      && path == PrintPlatformArch(p.platform, token, p.secureBoot) + DiskExtension(p.imageOptions.value.diskFormat)
               + OutExtension(p.outFormat)
  {
    hide ParsePlatformArch, CutOutFormat, CutDiskFormat, ParseArch, DiskExtension, OutExtension;
    CutFormatsJoin(path);
    var (uncompressed, outFormat) := CutOutFormat(path);
    CutFormatsJoin(uncompressed);
    var (base, diskFormat) := CutDiskFormat(uncompressed).value;
    token := PlatformArchText(base);
  }

  /** Where the parser may find "-installer-": at any dash of the platform and architecture. */
  lemma InstallerForm(lib: Library, path: string)
    requires PlatformInstaller(path) && Parse(lib, path).Ok?
    requires var (x, rest) := Cut(path, "-installer-").value;
      Parse(lib, path) == FromPlatformArch(Installer, ParsePlatformArch(x + "-" + rest[..|rest| - 4]))
    ensures Documented(lib, path) || Odd(lib, path)
  {
    ParseSound(lib, path);
    AfterCut(path, "-installer-");
    var (x, rest) := Cut(path, "-installer-").value;
    CutSuffixJoins(rest, ".tar");
    var z := rest[..|rest| - 4];
    assert rest == z + ".tar";
    hide Parse, ParsePlatformArch, Cut, PlatformInstaller, HasSuffix;
    InstallerText(lib, path, Parse(lib, path).value, x, z);
  }

  /** An accepted platform and architecture with "-installer-" at one of its dashes. */
  lemma InstallerText(lib: Library, path: string, p: Profile, x: string, z: string)
    requires path == x + "-installer-" + (z + ".tar") && Expressible(lib, p)
    requires FromPlatformArch(Installer, ParsePlatformArch(x + "-" + z)) == Ok(p)
    ensures Documented(lib, path) || Odd(lib, path)
  {
    hide ParsePlatformArch, PrintAs, ParseArch;
    var token := PlatformArchText(x + "-" + z);
    assert ValidPlatform(p.platform) && p.platform !in {"kernel", "cmdline", "installer"};
    hide Expressible;
    InstallerDash(p.platform, token, p.secureBoot, x, z);
    hide PrintPlatformArch, SecureBootSuffix;
    if x == p.platform && z == token + SecureBootSuffix(p.secureBoot) {
      InstallerPrint(p, token);
      FormOf(lib, path, p, token);
    } else if x == p.platform + "-" + token {
      assert IsSplitSecureBoot(path, p.platform, token);
    } else {
      assert IsSplitOcean(path, token, p.secureBoot);
    }
  }

  lemma InstallerDash(platform: string, token: string, secureBoot: bool, x: string, z: string)
    requires ValidPlatform(platform) && ParseArch(token).Ok?
    requires x + "-" + z == PrintPlatformArch(platform, token, secureBoot)
    ensures (x == platform && z == token + SecureBootSuffix(secureBoot))
         || (secureBoot && x == platform + "-" + token && z == "secureboot")
         || (x == "digital" && z == "ocean-" + token + SecureBootSuffix(secureBoot))
  {
    ArchTokenShape(token);
    hide ParseArch, SecureBootSuffix, ValidPlatform;
    var tail := SecureBootSuffix(secureBoot);
    assert (x + "-" + z)[|x|] == '-';
    DashPlaces(platform, token, secureBoot, |x|);
    if |x| == |platform| {
      DocumentedSplit(platform, token, tail, x, z);
    } else if platform == DIGITAL_OCEAN && |x| == 7 {
      OceanSplit(token, tail, x, z);
    } else {
      SecureBootSplit(platform, token, secureBoot, x, z);
    }
  }

  lemma DocumentedSplit(platform: string, token: string, tail: string, x: string, z: string)
    requires x + "-" + z == platform + "-" + token + tail && |x| == |platform|
    ensures x == platform && z == token + tail
  {
    assert platform + "-" + token + tail == platform + "-" + (token + tail);
    SplitsAt(platform, token + tail, x, z);
  }

  lemma OceanSplit(token: string, tail: string, x: string, z: string)
    requires x + "-" + z == DIGITAL_OCEAN + "-" + token + tail && |x| == 7
    ensures x == "digital" && z == "ocean-" + token + tail
  {
    OceanJoins(token, tail);
    SplitsAt("digital", "ocean-" + token + tail, x, z);
  }

  lemma SecureBootSplit(platform: string, token: string, secureBoot: bool, x: string, z: string)
    requires secureBoot && x + "-" + z == PrintPlatformArch(platform, token, secureBoot)
      && |x| == |platform| + 1 + |token|
    ensures x == platform + "-" + token && z == "secureboot"
  {
    SecureBootJoins(platform + "-" + token);
    SplitsAt(platform + "-" + token, "secureboot", x, z);
  }

  lemma SplitsAt(a: string, b: string, x: string, z: string)
    requires a + "-" + b == x + "-" + z && |a| == |x|
    ensures a == x && b == z
  {
    assert a == (a + "-" + b)[..|a|] && x == (x + "-" + z)[..|x|];
    assert b == (a + "-" + b)[|a| + 1..] && z == (x + "-" + z)[|x| + 1..];
  }

  /** The dashes of a platform and architecture. */
  lemma DashPlaces(platform: string, token: string, secureBoot: bool, i: nat)
    requires ValidPlatform(platform) && NoDash(token)
    requires var s := PrintPlatformArch(platform, token, secureBoot); i < |s| && s[i] == '-'
    ensures i == |platform| || (platform == DIGITAL_OCEAN && i == 7)
         || (secureBoot && i == |platform| + 1 + |token|)
  {
    var s, tail := PrintPlatformArch(platform, token, secureBoot), SecureBootSuffix(secureBoot);
    var n, m := |platform|, |platform| + 1 + |token|;
    assert forall k :: n < k < m ==> s[k] == token[k - n - 1];
    if i < n {
      assert s[i] == platform[i];
    } else if i >= m {
      assert s[i] == tail[i - m];
    }
  }

  /** Whatever the parser accepts is documented or one of the odd forms. */
  lemma AcceptedHasForm(lib: Library, path: string)
    requires Parse(lib, path).Ok?
    ensures Documented(lib, path) || Odd(lib, path)
  {
    hide ParsePlatformArch, ParseDisk, Cut, CutSecureBoot, HasSuffix, Bracketed, PlatformInstaller, Documented, Odd,
        ParseArch;
    if "kernel-" <= path {
      ArchForm(lib, path, Kernel, path[|"kernel-"|..]);
    } else if "cmdline-" <= path {
      BodyForm(lib, path, Cmdline, path[|"cmdline-"|..]);
    } else if Bracketed(path, "initramfs-", ".xz") {
      BracketedJoins(path, "initramfs-", ".xz");
      ArchForm(lib, path, Initramfs, Inner(path, "initramfs-", ".xz"));
    } else if HasSuffix(path, ".iso") {
      CutSuffixParts(path, ".iso");
      BodyForm(lib, path, ISO, path[..|path| - |".iso"|]);
    } else if HasSuffix(path, "-uki.efi") {
      CutSuffixParts(path, "-uki.efi");
      BodyForm(lib, path, UKI, path[..|path| - |"-uki.efi"|]);
    } else if Bracketed(path, "installer-", ".tar") {
      BracketedJoins(path, "installer-", ".tar");
      BareForm(lib, path, Inner(path, "installer-", ".tar"));
    } else if PlatformInstaller(path) {
      InstallerForm(lib, path);
    } else {
      DiskForm(lib, path);
    }
  }

  lemma ArchForm(lib: Library, path: string, kind: OutputKind, token: string)
    requires Parse(lib, path) == FromArch(kind, false, ParseArch(token)) && Parse(lib, path).Ok?
    requires (kind == Kernel && path == "kernel-" + token)
      || (kind == Initramfs && path == "initramfs-" + (token + ".xz"))
    ensures Documented(lib, path) || Odd(lib, path)
  {
    hide Parse, ParseArch, Expressible;
    ParseSound(lib, path);
    FormOf(lib, path, Parse(lib, path).value, token);
  }

  lemma BareForm(lib: Library, path: string, body: string)
    requires path == "installer-" + (body + ".tar")
    requires ParseArch(CutSecureBoot(body).0).Ok?
    ensures Documented(lib, path)
  {
    hide ParseArch, CutSecureBoot;
    CutSecureBootPrefix(body);
    var (token, secureBoot) := CutSecureBoot(body);
    assert body == token + SecureBootSuffix(secureBoot);
    assert IsBareInstaller(path, token, secureBoot);
  }

  lemma BracketedJoins(path: string, prefix: string, suffix: string)
    requires Bracketed(path, prefix, suffix)
    ensures path == prefix + (Inner(path, prefix, suffix) + suffix)
  {
  }

  lemma CutSuffixParts(path: string, suffix: string)
    requires HasSuffix(path, suffix)
    ensures |suffix| <= |path| && path == path[..|path| - |suffix|] + suffix
  {
  }

  // ---------------------------------------------------------------- main results

  /** The language of the parser: the documented forms, and exactly these odd ones. A form whose platform is named like
  a keyword that begins another form is no documented one here; such a name is rejected (ShapesAcceptedIff). */
  lemma LanguageIff(lib: Library, path: string)
    ensures Parse(lib, path).Ok? <==> Documented(lib, path) || Odd(lib, path)
  {
    hide Parse, PrintAs, Expressible, ParseArch, PrintBareInstaller;
    if Parse(lib, path).Ok? {
      AcceptedHasForm(lib, path);
    }
    forall p, token | IsForm(lib, path, p, token) ensures Parse(lib, path).Ok? {
      ParsePrint(lib, p, token);
    }
    forall token, secureBoot | IsBareInstaller(path, token, secureBoot) ensures Parse(lib, path).Ok? {
      BareInstallerPrinted(lib, token, secureBoot);
    }
    forall platform, token | IsSplitSecureBoot(path, platform, token) ensures Parse(lib, path).Ok? {
      SplitSecureBootParses(lib, path, platform, token);
    }
    forall token, secureBoot | IsSplitOcean(path, token, secureBoot) ensures Parse(lib, path).Ok? {
      SplitOceanParses(lib, path, token, secureBoot);
    }
  }

  /** The odd forms are not documented under any other reading. */
  lemma OddIsUndocumented(lib: Library, path: string)
    requires Odd(lib, path)
    ensures !Documented(lib, path)
  {
    hide Parse, PrintAs, Expressible, ParseArch, PrintBareInstaller, IsForm, IsBareInstaller, IsSplitOcean,
        IsSplitSecureBoot;
    if p, token :| IsForm(lib, path, p, token) && p.platform != "" {
      OddIsNoForm(lib, path, p, token);
    } else if token, secureBoot :| IsBareInstaller(path, token, secureBoot) {
      OddIsNotBare(lib, path, token, secureBoot);
    }
  }

  lemma OddIsNoForm(lib: Library, path: string, p: Profile, token: string)
    requires Odd(lib, path) && IsForm(lib, path, p, token)
    ensures p.platform == ""
  {
    hide Parse, Expressible, ParseArch;
    ParsePrint(lib, p, token);
    if q, t :| IsForm(lib, path, q, t) && q.platform == "" {
      ParsePrint(lib, q, t);
    } else if platform, t :| IsSplitSecureBoot(path, platform, t) {
      SplitSecureBootParses(lib, path, platform, t);
      TokenIsNotIn(t);
      SecureBootElsewhere(p, token, platform, t);
    } else {
      var t, secureBoot :| IsSplitOcean(path, t, secureBoot);
      SplitOceanParses(lib, path, t, secureBoot);
      OceanElsewhere(p, token, t, secureBoot);
    }
  }

  lemma SecureBootElsewhere(p: Profile, token: string, platform: string, t: string)
    requires p.kind.Installer? && p.platform == platform
    requires |t| >= 2 && !(t[0] == 'i' && t[1] == 'n')
    ensures PrintAs(p, token) != platform + "-" + t + "-installer-" + ("secureboot" + ".tar")
  {
    var a, b := PrintAs(p, token), platform + "-" + t + "-installer-" + ("secureboot" + ".tar");
    var n := |platform|;
    assert a[n + 1] == "-installer-"[1] == 'i' && a[n + 2] == "-installer-"[2] == 'n';
    assert b[n + 1] == t[0] && b[n + 2] == t[1];
  }

  lemma OceanElsewhere(p: Profile, token: string, t: string, secureBoot: bool)
    requires p.kind.Installer? && p.platform == DIGITAL_OCEAN
    ensures PrintAs(p, token) != "digital" + "-installer-" + (("ocean-" + t + SecureBootSuffix(secureBoot)) + ".tar")
  {
    var b := "digital" + "-installer-" + (("ocean-" + t + SecureBootSuffix(secureBoot)) + ".tar");
    assert PrintAs(p, token)[8] == DIGITAL_OCEAN[8] == 'o';
    assert b[8] == "-installer-"[1] == 'i';
  }

  lemma OddIsNotBare(lib: Library, path: string, token: string, secureBoot: bool)
    requires IsBareInstaller(path, token, secureBoot)
    ensures !Odd(lib, path)
  {
    hide Parse, ParseArch;
    BareInstallerPrinted(lib, token, secureBoot);
    assert path[0] == 'i' && "installer" + "-" <= path;
    forall p, t | IsForm(lib, path, p, t) ensures p.platform == METAL {
      ParsePrint(lib, p, t);
    }
    forall platform, t ensures !IsSplitSecureBoot(path, platform, t) {
      if IsSplitSecureBoot(path, platform, t) {
        assert platform + "-" <= path;
        NotKeyword(platform, "installer", path);
      }
    }
    forall t, sb ensures !IsSplitOcean(path, t, sb) {
      if IsSplitOcean(path, t, sb) {
        SplitOceanParses(lib, path, t, sb);
      }
    }
  }

  /** A concrete odd name: the architecture stands before "-installer-". */
  lemma SplitSecureBootExample(lib: Library)
    ensures var path := "metal" + "-" + "amd64" + "-installer-" + ("secureboot" + ".tar");
      && Parse(lib, path) == Ok(Profile(Installer, OutRaw, "metal", "amd64", true, None))
      && !Documented(lib, path)
  {
    hide Documented;
    var path := "metal" + "-" + "amd64" + "-installer-" + ("secureboot" + ".tar");
    assert IsSplitSecureBoot(path, "metal", "amd64");
    hide IsSplitSecureBoot, Parse;
    SplitSecureBootParses(lib, path, "metal", "amd64");
    OddIsUndocumented(lib, path);
  }

  // ---------------------------------------------------------------- platforms named like a leading keyword

  /** A profile of one of the documented forms, whatever its platform is called. */
  predicate Shape(lib: Library, p: Profile) {
    && ValidArch(p.arch) && ValidPlatform(p.platform)
    && (p.kind.Image? <==> p.imageOptions.Some?)
    && (p.kind.Kernel? || p.kind.Initramfs? ==> p.platform == METAL && !p.secureBoot)
    && (if p.kind.Image? then p.imageOptions.value == DiskOptions(lib, p.platform, p.imageOptions.value.diskFormat)
        else p.outFormat.OutRaw?)
  }

  /** Its platform is a keyword by which the parser takes the path for another form. */
  predicate NamedLikeKeyword(p: Profile) {
    match p.kind
    case ISO => p.platform == "kernel" || p.platform == "cmdline"
    case UKI => p.platform == "kernel" || p.platform == "cmdline"
    case Installer => p.platform == "kernel" || p.platform == "cmdline" || p.platform == "installer"
    case Image => p.platform == "kernel" || p.platform == "cmdline" || (p.platform == "initramfs" && p.outFormat.OutXZ?)
    case _ => false
  }

  /** It ends in a file name extension, and so neither in an architecture nor in "-secureboot". */
  predicate ExtensionEnding(s: string) {
    |s| >= 2 && s[|s| - 1] != '4' && s[|s| - 1] != '6' && (s[|s| - 1] == 't' ==> s[|s| - 2] == 's')
  }

  lemma PlatformArchHasNone(s: string)
    requires ParsePlatformArch(s).Ok?
    ensures !ExtensionEnding(s)
  {
    hide ParsePlatformArch;
    var pa := ParsePlatformArch(s).value;
    var token := PlatformArchText(s);
    ArchTokenShape(token);
    assert s == pa.platform + "-" + token + SecureBootSuffix(pa.secureBoot);
  }

  lemma ExtensionIsNoArch(s: string)
    requires ExtensionEnding(s)
    ensures ParseArch(s).Err? && ParsePlatformArch(s).Err?
  {
    hide ParsePlatformArch;
    if ParsePlatformArch(s).Ok? {
      PlatformArchHasNone(s);
    }
  }

  lemma ExtensionsEnd(body: string, diskFormat: DiskFormat, outFormat: OutFormat)
    ensures ExtensionEnding(body + ".iso") && ExtensionEnding(body + "-uki.efi") && ExtensionEnding(body + ".tar")
    ensures ExtensionEnding(body + DiskExtension(diskFormat))
    ensures ExtensionEnding(body + DiskExtension(diskFormat) + OutExtension(outFormat))
  {
  }

  /** What follows the platform in a printed form. */
  function Behind(p: Profile, token: string): string {
    var body := token + SecureBootSuffix(p.secureBoot);
    match p.kind
    case ISO => body + ".iso"
    case UKI => body + "-uki.efi"
    case Installer => ("installer-" + body) + ".tar"
    case Image =>
      if p.imageOptions.None? then body
      else body + DiskExtension(p.imageOptions.value.diskFormat) + OutExtension(p.outFormat)
    case _ => body
  }

  lemma PrintedBehind(p: Profile, token: string)
    requires p.kind.ISO? || p.kind.UKI? || p.kind.Installer? || p.kind.Image?
    ensures PrintAs(p, token) == (p.platform + "-") + Behind(p, token)
  {
    hide DiskExtension, OutExtension;
    var start, suffix := p.platform + "-", SecureBootSuffix(p.secureBoot);
    var body := token + suffix;
    assert start + token + suffix == start + body;
    if p.kind.Installer? {
      InstallerPrint(p, token);
      assert p.platform + "-installer-" == start + "installer-";
    } else if p.kind.Image? && p.imageOptions.Some? {
      var disk, out := DiskExtension(p.imageOptions.value.diskFormat), OutExtension(p.outFormat);
      assert start + body + disk + out == start + (body + disk + out);
    }
  }

  lemma KeywordRejected(lib: Library, rest: string)
    requires ExtensionEnding(rest)
    ensures Parse(lib, "kernel-" + rest).Err? && Parse(lib, "cmdline-" + rest).Err?
  {
    hide ParsePlatformArch, ParseArch, ParseDisk;
    ExtensionIsNoArch(rest);
    CutPrefixConcat("kernel-", rest);
    CmdlinePrinted(lib, rest);
  }

  lemma InstallerRejected(lib: Library, token: string, secureBoot: bool)
    requires ParseArch(token).Ok?
    ensures Parse(lib, "installer-" + (("installer-" + (token + SecureBootSuffix(secureBoot))) + ".tar")).Err?
  {
    var base := "installer-" + token;
    var body := "installer-" + (token + SecureBootSuffix(secureBoot));
    assert body == base + SecureBootSuffix(secureBoot);
    assert ParseArch(base).Err?;
    hide CutSecureBoot, ParseArch, Bracketed, HasSuffix, PlatformInstaller;
    BracketedPrinted("installer-", body, ".tar");
    CutSecureBootPrinted("installer-", token, secureBoot);
    NotOtherForms(body);
  }

  lemma InitramfsRejected(lib: Library, body: string)
    requires ExtensionEnding(body)
    ensures Parse(lib, "initramfs-" + (body + ".xz")).Err?
  {
    ExtensionIsNoArch(body);
    hide ParseArch, ParsePlatformArch, ParseDisk, HasSuffix;
    var path := "initramfs-" + (body + ".xz");
    assert !("kernel-" <= path) && !("cmdline-" <= path) by { assert path[0] == 'i'; }
    BracketedPrinted("initramfs-", body, ".xz");
  }

  lemma NamedLikeKeywordRejected(lib: Library, p: Profile, token: string)
    requires Shape(lib, p) && ParseArch(token).Ok? && NamedLikeKeyword(p)
    ensures Parse(lib, PrintAs(p, token)).Err?
  {
    hide Parse, ParseArch, DiskExtension, OutExtension, DiskOptions, PrintAs;
    var body := token + SecureBootSuffix(p.secureBoot);
    var diskFormat := if p.imageOptions.Some? then p.imageOptions.value.diskFormat else DiskRaw;
    PrintedBehind(p, token);
    ExtensionsEnd(body, diskFormat, p.outFormat);
    ExtensionsEnd("installer-" + body, diskFormat, p.outFormat);
    hide ExtensionEnding;
    if p.platform == "installer" {
      InstallerRejected(lib, token, p.secureBoot);
      assert "installer" + "-" == "installer-";
    } else if p.platform == "initramfs" {
      InitramfsRejected(lib, body + DiskExtension(diskFormat));
      XZ();
      assert "initramfs" + "-" == "initramfs-";
      assert Behind(p, token) == (body + DiskExtension(diskFormat)) + ".xz";
    } else {
      KeywordRejected(lib, Behind(p, token));
      assert "kernel" + "-" == "kernel-" && "cmdline" + "-" == "cmdline-";
    }
  }

  lemma XZ()
    ensures OutExtension(OutXZ) == ".xz"
  {
  }

  /** Of the documented forms, with any platform, exactly those are accepted whose platform is not named like a keyword
  that begins another form: only these are called documented above. */
  lemma ShapesAcceptedIff(lib: Library, p: Profile, token: string)
    requires Shape(lib, p) && ParseArch(token) == Ok(p.arch)
    ensures Parse(lib, PrintAs(p, token)).Ok? <==> !NamedLikeKeyword(p)
  {
    if NamedLikeKeyword(p) {
      NamedLikeKeywordRejected(lib, p, token);
    } else {
      assert Expressible(lib, p);
      hide Parse, PrintAs;
      ParsePrint(lib, p, token);
    }
  }

  // ---------------------------------------------------------------- sidecars

  /** A documented artifact with at most one sidecar suffix, as the API documents it. */
  ghost predicate DocumentedName(lib: Library, path: string) {
    exists base, s :: Documented(lib, base) && path == base + SidecarSuffix(s)
  }

  /** An odd artifact with at most one sidecar suffix. */
  ghost predicate OddName(lib: Library, path: string) {
    exists base, s :: Odd(lib, base) && path == base + SidecarSuffix(s)
  }

  /** Any artifact with two sidecar suffixes. */
  ghost predicate TwoSidecars(lib: Library, path: string) {
    exists base, s1, s2 :: Parse(lib, base).Ok? && IsTwice(path, base, s1, s2)
  }

  predicate IsTwice(path: string, base: string, s1: Sidecar, s2: Sidecar) {
    s1 != NoSidecar && s2 != NoSidecar && path == base + SidecarSuffix(s1) + SidecarSuffix(s2)
  }

  /** What the image service makes of an artifact with one sidecar at most. */
  lemma ResolvesOnce(lib: Library, base: string, s: Sidecar)
    requires Parse(lib, base).Ok?
    ensures SplitArtifactPath(base + SidecarSuffix(s)) == (base, s)
    ensures ResolveArtifact(lib, base + SidecarSuffix(s)) == Ok((Parse(lib, base).value, s))
  {
    hide Parse, HasSuffix;
    ArtifactsHaveNoSidecar(lib, base);
    if s == NoSidecar {
      assert base + SidecarSuffix(s) == base;
    } else {
      SplitConcat(base, s);
    }
  }

  /** A second sidecar on any artifact is accepted, and the outer one decides what is served. */
  lemma TwoSidecarsAccepted(lib: Library, artifact: string, s1: Sidecar, s2: Sidecar)
    requires Parse(lib, artifact).Ok? && s1 != NoSidecar && s2 != NoSidecar
    ensures var path := artifact + SidecarSuffix(s1) + SidecarSuffix(s2);
      && SplitArtifactPath(path) == (artifact + SidecarSuffix(s1), s2)
      && ResolveArtifact(lib, path) == Ok((Parse(lib, artifact).value, s2))
  {
    hide Parse, HasSuffix;
    SplitConcat(artifact, s1);
    SplitConcat(artifact + SidecarSuffix(s1), s2);
  }

  /** The image service accepts the documented names, and beyond those exactly the odd artifacts and the artifacts with
  a second sidecar; the former and the latter have nothing in common. */
  lemma ResolveAcceptsIff(lib: Library, path: string)
    ensures ResolveArtifact(lib, path).Ok?
        <==> DocumentedName(lib, path) || OddName(lib, path) || TwoSidecars(lib, path)
    ensures DocumentedName(lib, path) ==> !OddName(lib, path) && !TwoSidecars(lib, path)
  {
    hide Parse, HasSuffix, Documented, Odd, SplitArtifactPath;
    var (base, s2) := SplitArtifactPath(path);
    SplitJoins(path);
    if ResolveArtifact(lib, path).Ok? {
      var (artifact, s1) := SplitArtifactPath(base);
      SplitJoins(base);
      LanguageIff(lib, artifact);
      if s2 == NoSidecar {
        assert path == base;
        assert path == artifact + SidecarSuffix(s1);
      } else if s1 == NoSidecar {
        assert base == artifact;
        assert path == artifact + SidecarSuffix(s2);
      } else {
        assert IsTwice(path, artifact, s1, s2);
      }
    }
    forall b, s | (Documented(lib, b) || Odd(lib, b)) && path == b + SidecarSuffix(s)
      ensures ResolveArtifact(lib, path).Ok? && base == b
    {
      LanguageIff(lib, b);
      ResolvesOnce(lib, b, s);
    }
    forall b, s, t | Parse(lib, b).Ok? && IsTwice(path, b, s, t)
        ensures ResolveArtifact(lib, path).Ok? && !Parse(lib, base).Ok? {
      TwoSidecarsAccepted(lib, b, s, t);
      SidecarIsNoArtifact(lib, b, s);
    }
    if DocumentedName(lib, path) {
      LanguageIff(lib, base);
      if Odd(lib, base) { OddIsUndocumented(lib, base); }
    }
  }

  lemma SidecarIsNoArtifact(lib: Library, artifact: string, s: Sidecar)
    requires s != NoSidecar
    ensures !Parse(lib, artifact + SidecarSuffix(s)).Ok?
  {
    hide Parse, HasSuffix;
    SplitConcat(artifact, s);
    if Parse(lib, artifact + SidecarSuffix(s)).Ok? {
      ArtifactsHaveNoSidecar(lib, artifact + SidecarSuffix(s));
    }
  }

  /** A concrete name with two sidecars, which is accepted and not documented. */
  lemma TwoSidecarsExample(lib: Library)
    ensures var path := "kernel-amd64" + ".sha256" + ".sigstore.json";
      && ResolveArtifact(lib, path).Ok? && ResolveArtifact(lib, path).value.1 == Signature
      && !DocumentedName(lib, path)
  {
    hide Parse, HasSuffix, DocumentedName;
    ArchFormsPrinted(lib, "amd64");
    assert "kernel-" + "amd64" == "kernel-amd64";
    TwoSidecarsAccepted(lib, "kernel-amd64", SHA256, Signature);
    var path := "kernel-amd64" + ".sha256" + ".sigstore.json";
    assert IsTwice(path, "kernel-amd64", SHA256, Signature);
    ResolveAcceptsIff(lib, path);
  }
}
