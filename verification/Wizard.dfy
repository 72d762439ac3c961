/** The wizard's choices, in the URL query and in a schematic (frontend/src/wizard/params.ts). */
module Wizard {
  import opened Strings
  import opened Ordering
  import opened Words

  datatype Target = Metal | Cloud | Sbc
  datatype Arch = Amd64 | Arm64

  datatype Params = Params(
    target: Option<Target>, version: Option<string>, platform: Option<string>, board: Option<string>,
        arch: Option<Arch>,
    secureBoot: bool, extensions: Option<seq<string>>, cmdline: string, cmdlineSet: bool, bootloader: Option<string>,
    overlayOptions: string, schematicId: Option<string>)

  /** White space as `trim` and `\s` know it. */
  predicate IsSpace(c: char) {
    || '\t' <= c <= '\r' || c == ' ' || c == '\U{00A0}' || c == '\U{FEFF}' || c == '\U{1680}'
    || '\U{2000}' <= c <= '\U{200A}' || c == '\U{2028}' || c == '\U{2029}' || c == '\U{202F}' || c == '\U{205F}'
    || c == '\U{3000}'
  }

  // ---------------------------------------------------------------- the query

  /** The values of a key: none if it is absent, and None for a null one. */
  type Values = seq<Option<string>>

  /** The values of the keys that the wizard knows, of which secureBoot is `secureboot` and the others are spelled with
  dashes. */
  datatype Query = Query(
    target: Values, version: Values, platform: Values, board: Values, arch: Values, secureBoot: Values,
    extensions: Values, cmdline: Values, cmdlineSet: Values, bootloader: Values, overlayOptions: Values,
        schematicId: Values)

  const EMPTY := Query([], [], [], [], [], [], [], [], [], [], [], [])

  const NO_EXTENSIONS := "-"

  function First(values: Values): Option<string> { if values == [] then None else values[0] }

  /** The values of a key that are not empty. */
  function NonEmpty(values: Values): seq<string> {
    if values == [] then []
    else
      (if values[0].Some? && values[0].value != "" then [values[0].value] else []) + NonEmpty(values[1..])
  }

  /** `value || undefined`. */
  function Truthy(s: Option<string>): Option<string> { if s.Some? && |s.value| == 0 then None else s }

  function WithoutV(s: Option<string>): Option<string> {
    if s.Some? && "v" <= s.value then Some(s.value[1..]) else s
  }

  function OrEmpty(s: Option<string>): string { if s.Some? then s.value else "" }

  function TargetName(t: Target): string { match t case Metal => "metal" case Cloud => "cloud" case Sbc => "sbc" }

  function TargetOf(s: Option<string>): Option<Target> {
    if s == Some("metal") then Some(Metal) else if s == Some("cloud") then Some(Cloud) else if s == Some("sbc") then
        Some(Sbc) else None
  }

  function ArchName(a: Arch): string { match a case Amd64 => "amd64" case Arm64 => "arm64" }

  function ArchOf(s: Option<string>): Option<Arch> {
    if s == Some("amd64") then Some(Amd64) else if s == Some("arm64") then Some(Arm64) else None
  }

  function WithoutDash(s: seq<string>): seq<string> {
    if s == [] then [] else (if s[0] != NO_EXTENSIONS then [s[0]] else []) + WithoutDash(s[1..])
  }

  function ParseQuery(q: Query): Params {
    var target := TargetOf(First(q.target));
    var extensions := NonEmpty(q.extensions);
    Params(
      target,
      Truthy(WithoutV(First(q.version))),
      if target == Some(Cloud) then Truthy(First(q.platform)) else None,
      if target == Some(Sbc) then Truthy(First(q.board)) else None,
      ArchOf(First(q.arch)),
      First(q.secureBoot) == Some("true"),
      if extensions == [] then None else Some(WithoutDash(extensions)),
      Trim(IsSpace, OrEmpty(First(q.cmdline))),
      Truthy(First(q.cmdlineSet)).Some?,
      Truthy(First(q.bootloader)),
      Trim(IsSpace, OrEmpty(First(q.overlayOptions))),
      Truthy(First(q.schematicId)))
  }

  /** The values of a field, which is absent if it is empty. */
  function Field(value: Option<string>): Values { if Truthy(value).Some? then [value] else [] }

  function ListField(values: Option<seq<string>>): Values {
    if values.None? then [] else AsValues(if values.value == [] then [NO_EXTENSIONS] else values.value)
  }

  function AsValues(s: seq<string>): seq<Option<string>> { seq(|s|, i requires 0 <= i < |s| => Some(s[i])) }

  function TargetText(p: Params): Option<string> { if p.target.Some? then Some(TargetName(p.target.value)) else None }

  function ArchText(p: Params): Option<string> { if p.arch.Some? then Some(ArchName(p.arch.value)) else None }

  function PlatformText(p: Params): Option<string> {
    if p.target == Some(Metal) then Some("metal") else if p.target == Some(Cloud) then p.platform else None
  }

  function BoardText(p: Params): Option<string> { if p.target == Some(Sbc) then p.board else None }

  function Flag(b: bool): Option<string> { if b then Some("true") else None }

  /** What the query always says. */
  function CommonQuery(p: Params): Query {
    EMPTY.(target := Field(TargetText(p)), version := Field(p.version), arch := Field(ArchText(p)),
           platform := Field(PlatformText(p)), secureBoot := Field(Flag(p.secureBoot)))
  }

  /** The final step keeps only what the schematic does not hold. */
  function ToQuery(p: Params): Query {
    if Truthy(p.schematicId).Some? then CommonQuery(p).(schematicId := Field(p.schematicId))
    else
      CommonQuery(p).(board := Field(BoardText(p)), bootloader := Field(p.bootloader),
                      extensions := ListField(p.extensions),
                      cmdline := Field(Some(p.cmdline)), cmdlineSet := Field(Flag(p.cmdlineSet)),
                      overlayOptions := Field(Some(p.overlayOptions)))
  }

  /** The query is filled field by field. */
  method WriteQuery(p: Params) returns (query: Query)
    ensures query == ToQuery(p)
  {
    hide AsValues, CommonQuery;
    query := WriteCommon(p);
    if Truthy(p.schematicId).Some? {
      query := query.(schematicId := [p.schematicId]);
      return;
    }
    if p.target == Some(Sbc) && Truthy(p.board).Some? { query := query.(board := [p.board]); }
    assert query == CommonQuery(p).(board := Field(BoardText(p)));
    if Truthy(p.bootloader).Some? { query := query.(bootloader := [p.bootloader]); }
    if p.extensions.Some? {
      query := query.(extensions := AsValues(if |p.extensions.value| > 0 then p.extensions.value else [NO_EXTENSIONS]));
    }
    assert query
        == CommonQuery(p).(board := Field(BoardText(p)), bootloader := Field(p.bootloader),
                           extensions := ListField(p.extensions));
    query := WriteCustomization(p, query);
  }

  method WriteCommon(p: Params) returns (query: Query)
    ensures query == CommonQuery(p)
    ensures query.board == [] && query.bootloader == [] && query.extensions == []
    ensures query.cmdline == [] && query.cmdlineSet == [] && query.overlayOptions == []
  {
    query := EMPTY;
    if p.target.Some? { query := query.(target := [Some(TargetName(p.target.value))]); }
    if Truthy(p.version).Some? { query := query.(version := [p.version]); }
    if p.arch.Some? { query := query.(arch := [Some(ArchName(p.arch.value))]); }
    assert query == EMPTY.(target := Field(TargetText(p)), version := Field(p.version), arch := Field(ArchText(p)));
    if p.target == Some(Metal) { query := query.(platform := [Some("metal")]); }
    if p.target == Some(Cloud) && Truthy(p.platform).Some? { query := query.(platform := [p.platform]); }
    if p.secureBoot { query := query.(secureBoot := [Some("true")]); }
  }

  method WriteCustomization(p: Params, q: Query) returns (query: Query)
    requires q.cmdline == [] && q.cmdlineSet == [] && q.overlayOptions == []
    ensures query == q.(cmdline := Field(Some(p.cmdline)), cmdlineSet := Field(Flag(p.cmdlineSet)),
                        overlayOptions := Field(Some(p.overlayOptions)))
  {
    query := q;
    if p.cmdline != "" { query := query.(cmdline := [Some(p.cmdline)]); }
    if p.cmdlineSet { query := query.(cmdlineSet := [Some("true")]); }
    if p.overlayOptions != "" { query := query.(overlayOptions := [Some(p.overlayOptions)]); }
  }

  /** The choices a query can hold. */
  predicate WellFormed(p: Params) {
    && (p.version.Some? ==> p.version.value != "" && p.version.value[0] != 'v')
    && (p.platform.Some? ==> p.target == Some(Cloud) && p.platform.value != "")
    && p.schematicId != Some("")
    && (if p.schematicId.Some? then
          && p.board == None && p.extensions == None && p.bootloader == None
          && p.cmdline == "" && !p.cmdlineSet && p.overlayOptions == ""
        else
          && (p.board.Some? ==> p.target == Some(Sbc) && p.board.value != "")
          && (p.extensions.Some? ==> forall e :: e in p.extensions.value ==> e != "" && e != NO_EXTENSIONS)
          && p.bootloader != Some("")
          && Trimmed(IsSpace, p.cmdline) && Trimmed(IsSpace, p.overlayOptions))
  }

  lemma {:induction false} NonEmptyOf(s: seq<string>)
    ensures |NonEmpty(AsValues(s))| <= |s|
    ensures NonEmpty(AsValues(s)) == s <==> forall e :: e in s ==> e != ""
    ensures forall e :: e in NonEmpty(AsValues(s)) ==> e in s && e != ""
  {
    if s != [] {
      NonEmptyOf(s[1..]);
      assert AsValues(s)[1..] == AsValues(s[1..]);
      assert forall e :: e in s <==> e == s[0] || e in s[1..];
      assert s == [s[0]] + s[1..];
      var rest := NonEmpty(AsValues(s[1..]));
      if s[0] != "" {
        assert NonEmpty(AsValues(s)) == [s[0]] + rest;
        assert NonEmpty(AsValues(s))[1..] == rest;
        assert NonEmpty(AsValues(s)) == s <==> rest == s[1..];
      } else {
        assert s[0] in s && |NonEmpty(AsValues(s))| < |s|;
      }
    }
  }

  lemma {:induction false} WithoutDashOf(s: seq<string>)
    ensures |WithoutDash(s)| <= |s|
    ensures WithoutDash(s) == s <==> forall e :: e in s ==> e != NO_EXTENSIONS
    ensures forall e :: e in WithoutDash(s) ==> e in s && e != NO_EXTENSIONS
  {
    if s != [] {
      WithoutDashOf(s[1..]);
      assert forall e :: e in s <==> e == s[0] || e in s[1..];
      assert s == [s[0]] + s[1..];
      var rest := WithoutDash(s[1..]);
      if s[0] != NO_EXTENSIONS {
        assert WithoutDash(s) == [s[0]] + rest;
        assert WithoutDash(s)[1..] == rest;
        assert WithoutDash(s) == s <==> rest == s[1..];
      } else {
        assert s[0] in s && |WithoutDash(s)| < |s|;
      }
    }
  }

  /** What becomes of a list of extensions. */
  function ListBack(s: seq<string>): seq<string> { NonEmpty(AsValues(if s == [] then [NO_EXTENSIONS] else s)) }

  function ExtensionsBack(s: seq<string>): Option<seq<string>> {
    if ListBack(s) == [] then None else Some(WithoutDash(ListBack(s)))
  }

  lemma ExtensionsBackIff(s: seq<string>)
    ensures ExtensionsBack(s) == Some(s) <==> forall e :: e in s ==> e != "" && e != NO_EXTENSIONS
  {
    NonEmptyOf(s);
    WithoutDashOf(NonEmpty(AsValues(s)));
    if s == [] {
      NonEmptyOf([NO_EXTENSIONS]);
      assert NonEmpty(AsValues([NO_EXTENSIONS])) == [NO_EXTENSIONS];
      assert WithoutDash([NO_EXTENSIONS]) == WithoutDash([NO_EXTENSIONS][1..]) == [];
    } else {
      var e := NonEmpty(AsValues(s));
      if ExtensionsBack(s) == Some(s) {
        assert |WithoutDash(e)| == |s|;
        assert |e| == |s|;
        ShorterIsDifferent(s);
      }
    }
  }

  lemma {:induction false} ShorterIsDifferent(s: seq<string>)
    ensures |NonEmpty(AsValues(s))| == |s| ==> NonEmpty(AsValues(s)) == s
  {
    if s != [] {
      NonEmptyOf(s[1..]);
      ShorterIsDifferent(s[1..]);
      assert AsValues(s)[1..] == AsValues(s[1..]);
    }
  }

  /** What comes back of the choices. */
  function Back(p: Params): Params {
    var full := Truthy(p.schematicId).None?;
    Params(
      p.target, Truthy(WithoutV(Truthy(p.version))),
      if p.target == Some(Cloud) then Truthy(p.platform) else None,
      if full && p.target == Some(Sbc) then Truthy(p.board) else None,
      p.arch, p.secureBoot,
      if full && p.extensions.Some? then ExtensionsBack(p.extensions.value) else None,
      if full then Trim(IsSpace, p.cmdline) else "",
      full && p.cmdlineSet,
      if full then Truthy(p.bootloader) else None,
      if full then Trim(IsSpace, p.overlayOptions) else "",
      Truthy(p.schematicId))
  }

  lemma FieldBack(value: Option<string>)
    ensures First(Field(value)) == Truthy(value) && Truthy(Truthy(value)) == Truthy(value)
    ensures OrEmpty(Truthy(value)) == OrEmpty(value)
  {
  }

  lemma FlagBack(b: bool)
    ensures (First(Field(Flag(b))) == Some("true")) == b && Truthy(First(Field(Flag(b)))).Some? == b
  {
  }

  lemma QueryFields(p: Params)
    ensures var q := ToQuery(p);
      var full := Truthy(p.schematicId).None?;
      && q.target == Field(TargetText(p)) && q.version == Field(p.version) && q.arch == Field(ArchText(p))
      && q.platform == Field(PlatformText(p)) && q.secureBoot == Field(Flag(p.secureBoot))
      && q.schematicId == (if full then [] else Field(p.schematicId))
      && q.board == (if full then Field(BoardText(p)) else [])
      && q.bootloader == (if full then Field(p.bootloader) else [])
      && q.extensions == (if full then ListField(p.extensions) else [])
      && q.cmdline == (if full then Field(Some(p.cmdline)) else [])
      && q.cmdlineSet == (if full then Field(Flag(p.cmdlineSet)) else [])
      && q.overlayOptions == (if full then Field(Some(p.overlayOptions)) else [])
  {
    hide Field, ListField, Flag, TargetText, ArchText, PlatformText, BoardText;
  }

  lemma MachineBack(p: Params)
    ensures var q, b := ParseQuery(ToQuery(p)), Back(p);
      && q.target == b.target && q.version == b.version && q.platform == b.platform && q.board == b.board
          && q.arch == b.arch
      && q.secureBoot == b.secureBoot
  {
    Names(p);
    FieldBack(TargetText(p));
    FieldBack(ArchText(p));
    FieldBack(PlatformText(p));
    FieldBack(BoardText(p));
    FieldBack(p.version);
    FlagBack(p.secureBoot);
    assert First([]) == None && Truthy(None) == None;
    QueryFields(p);
    hide ToQuery, Trim, IsSpace, NonEmpty, ListField, WithoutDash, TargetOf, ArchOf, TargetName, ArchName, WithoutV,
        TargetText,
      ArchText, First, Field, Flag, Truthy, OrEmpty;
  }

  lemma CustomizationBack(p: Params)
    ensures var q, b := ParseQuery(ToQuery(p)), Back(p);
      && q.extensions == b.extensions && q.cmdline == b.cmdline && q.cmdlineSet == b.cmdlineSet
          && q.bootloader == b.bootloader
      && q.overlayOptions == b.overlayOptions && q.schematicId == b.schematicId
  {
    FieldBack(p.bootloader);
    FieldBack(p.schematicId);
    FieldBack(Some(p.cmdline));
    FieldBack(Some(p.overlayOptions));
    FlagBack(p.cmdlineSet);
    assert First([]) == None && Truthy(None) == None && NonEmpty([]) == [] && OrEmpty(None) == ""
        && Trim(IsSpace, "") == "";
    assert OrEmpty(Some(p.cmdline)) == p.cmdline && OrEmpty(Some(p.overlayOptions)) == p.overlayOptions;
    QueryFields(p);
    hide ToQuery, Trim, IsSpace, NonEmpty, WithoutDash, TargetOf, ArchOf, TargetName, ArchName, WithoutV, TargetText,
      ArchText, First, Field, Flag, Truthy, OrEmpty;
  }

  lemma ParsedBack(p: Params)
    ensures ParseQuery(ToQuery(p)) == Back(p)
  {
    hide ToQuery, ParseQuery, Back;
    MachineBack(p);
    CustomizationBack(p);
  }

  /** A query gives the choices back exactly when they are ones a query can hold. */
  lemma QueryRoundTripIff(p: Params)
    ensures ParseQuery(ToQuery(p)) == p <==> WellFormed(p)
  {
    ParsedBack(p);
    TrimIff(IsSpace, p.cmdline);
    TrimIff(IsSpace, p.overlayOptions);
    VersionBack(p.version);
    if p.extensions.Some? {
      ExtensionsBackIff(p.extensions.value);
    }
    TruthyIff(p.platform);
    TruthyIff(p.board);
    TruthyIff(p.bootloader);
    TruthyIff(p.schematicId);
    hide ToQuery, ParseQuery, Trim, IsSpace, Trimmed, ExtensionsBack, WithoutV;
  }

  lemma TruthyIff(s: Option<string>)
    ensures Truthy(s) == s <==> s != Some("")
  {
  }

  lemma Names(p: Params)
    ensures TargetOf(Truthy(TargetText(p))) == p.target && ArchOf(Truthy(ArchText(p))) == p.arch
  {
  }

  lemma VersionBack(v: Option<string>)
    ensures Truthy(WithoutV(Truthy(v))) == v <==> (v.Some? ==> v.value != "" && v.value[0] != 'v')
  {
    if v.Some? && v.value != "" {
      assert "v" <= v.value <==> v.value[0] == 'v';
    }
  }

  // ---------------------------------------------------------------- navigation

  datatype Step = TargetStep | VersionStep | PlatformStep | BoardStep | ArchStep | ExtensionsStep | CustomizationStep
      | FinalStep

  function Steps(): seq<Step> {
    [TargetStep, VersionStep, PlatformStep, BoardStep, ArchStep, ExtensionsStep, CustomizationStep, FinalStep]
  }

  function Index(s: Step): (i: nat)
    ensures i < |Steps()| && Steps()[i] == s
  {
    match s
    case TargetStep => 0 case VersionStep => 1 case PlatformStep => 2 case BoardStep => 3
    case ArchStep => 4 case ExtensionsStep => 5 case CustomizationStep => 6 case FinalStep => 7
  }

  predicate StepApplies(s: Step, p: Params) {
    match s
    case PlatformStep => p.target == Some(Cloud)
    case BoardStep => p.target == Some(Sbc)
    case _ => true
  }

  function CurrentStep(p: Params): Step {
    if p.target.None? then TargetStep
    else if Truthy(p.version).None? then VersionStep
    else if p.target == Some(Cloud) && Truthy(p.platform).None? then PlatformStep
    else if p.target == Some(Sbc) && Truthy(p.board).None? then BoardStep
    else if p.arch.None? then ArchStep
    else if p.extensions.None? then ExtensionsStep
    else if !p.cmdlineSet then CustomizationStep
    else FinalStep
  }

  function ClearFrom(s: Step, p: Params): Params {
    var i := Index(s);
    Params(
      if i <= 0 then None else p.target,
      if i <= 1 then None else p.version,
      if i <= 2 then None else p.platform,
      if i <= 3 then None else p.board,
      if i <= 4 then None else p.arch,
      i > 4 && p.secureBoot,
      if i <= 5 then None else p.extensions,
      if i <= 6 then "" else p.cmdline,
      i > 6 && p.cmdlineSet,
      if i <= 6 then None else p.bootloader,
      if i <= 6 then "" else p.overlayOptions,
      None)
  }

  method Clear(s: Step, p: Params) returns (cleared: Params)
    ensures cleared == ClearFrom(s, p)
  {
    var index := Index(s);
    cleared := p.(schematicId := None);
    if Index(TargetStep) >= index { cleared := cleared.(target := None); }
    if Index(VersionStep) >= index { cleared := cleared.(version := None); }
    if Index(PlatformStep) >= index { cleared := cleared.(platform := None); }
    if Index(BoardStep) >= index { cleared := cleared.(board := None); }
    if Index(ArchStep) >= index { cleared := cleared.(arch := None, secureBoot := false); }
    if Index(ExtensionsStep) >= index { cleared := cleared.(extensions := None); }
    if Index(CustomizationStep) >= index {
      cleared := cleared.(cmdline := "", cmdlineSet := false, bootloader := None, overlayOptions := "");
    }
  }

  function Earlier(s: Step, t: Step): Step { if Index(s) <= Index(t) then s else t }

  /** Going back twice is going back to the earlier of the two steps. */
  lemma ClearFromComposes(s: Step, t: Step, p: Params)
    ensures ClearFrom(s, ClearFrom(t, p)) == ClearFrom(Earlier(s, t), p)
  {
  }

  /** Going back to a step shows that step exactly when it asks something for the target and everything before it had
  been answered. */
  lemma BackShowsStepIff(s: Step, p: Params)
    ensures CurrentStep(ClearFrom(s, p)) == s <==> StepApplies(s, p) && Index(CurrentStep(p)) >= Index(s)
  {
  }

  /** The step that Back leads to: the last one before it that asks something. */
  method PreviousStep(s: Step, p: Params, archDecided: bool) returns (previous: Option<Step>)
    ensures previous.Some? ==> Asks(previous.value, p, archDecided) && Index(previous.value) < Index(s)
    ensures forall t :: Index(t) < Index(s) && Asks(t, p, archDecided) ==>
      previous.Some? && Index(t) <= Index(previous.value)
  {
    var i := Index(s) - 1;
    while i >= 0
      invariant -1 <= i < Index(s)
      invariant forall t :: i < Index(t) < Index(s) ==> !Asks(t, p, archDecided)
    {
      var t := Steps()[i];
      assert Index(t) == i;
      if Asks(t, p, archDecided) {
        return Some(t);
      }
      assert forall u :: Index(u) == i ==> u == t;
      i := i - 1;
    }
    previous := None;
  }

  predicate Asks(s: Step, p: Params, archDecided: bool) { StepApplies(s, p) && !(s.ArchStep? && archDecided) }

  /** Back from a step that was reached shows the step it leads to. */
  lemma BackGoesBack(s: Step, t: Step, p: Params, archDecided: bool)
    requires Index(t) < Index(s) && Asks(t, p, archDecided) && Index(CurrentStep(p)) >= Index(s)
    ensures CurrentStep(ClearFrom(t, p)) == t
  {
    BackShowsStepIff(t, p);
  }

  // ---------------------------------------------------------------- schematics

  datatype Overlay = Overlay(name: string, image: string)

  type Mapping = map<string, string>

  datatype Schematic = Schematic(
    kernelArgs: Option<seq<string>>, extensions: Option<seq<string>>, bootloader: Option<string>,
        embedded: Option<string>,
    overlay: Option<(Overlay, Option<Mapping>)>)

  /** Reading a mapping from YAML, and writing one. */
  datatype Yaml = Yaml(load: string -> Option<Mapping>, dump: Mapping -> string)

  /** What is written, without trailing white space, is read back. */
  ghost predicate RoundTrips(yaml: Yaml) {
    forall m :: TrimRight(IsSpace, yaml.dump(m)) != "" && yaml.load(TrimRight(IsSpace, yaml.dump(m))) == Some(m)
  }

  function ArgsOf(cmdline: string): Option<seq<string>> {
    var args := Split(IsSpace, cmdline);
    if args == [] then None else Some(args)
  }

  function ExtensionsOf(extensions: Option<seq<string>>): Option<seq<string>> {
    if extensions.Some? && extensions.value != [] then Some(SortStrings(extensions.value)) else None
  }

  function BootloaderOf(b: Option<string>): Option<string> {
    if Truthy(b).Some? && b != Some("auto") then b else None
  }

  function EmbeddedOf(text: string): Option<string> { if Trim(IsSpace, text) == "" then None else Some(text) }

  /** None when the overlay options are not a YAML mapping. */
  function OverlayOf(yaml: Yaml, sbc: bool, options: string, overlay: Option<Overlay>): Option<Option<(Overlay,
      Option<Mapping>)>> {
    if !(sbc && overlay.Some?) then Some(None)
    else if options == "" then Some(Some((overlay.value, None)))
    else if yaml.load(options).None? then None
    else Some(Some((overlay.value, yaml.load(options))))
  }

  /** The schematic of the choices, unless the overlay options are no mapping. */
  function ToSchematic(yaml: Yaml, p: Params, embedded: string, overlay: Option<Overlay>): Option<Schematic> {
    match OverlayOf(yaml, p.target == Some(Sbc), p.overlayOptions, overlay)
    case None => None
    case Some(o) =>
      Some(Schematic(ArgsOf(p.cmdline), ExtensionsOf(p.extensions), BootloaderOf(p.bootloader), EmbeddedOf(embedded),
                     o))
  }

  datatype Choices = Choices(params: Params, embedded: string, overlay: Option<Overlay>)

  const START := Params(None, None, None, None, None, false, None, "", false, None, "", None)

  function FromSchematic(yaml: Yaml, s: Schematic): Choices {
    var params := START.(
      cmdline := Join(if s.kernelArgs.Some? then s.kernelArgs.value else []),
      cmdlineSet := true,
      extensions := Some(if s.extensions.Some? then s.extensions.value else []),
      bootloader := if Truthy(s.bootloader).Some? && s.bootloader != Some("none") then s.bootloader else None);
    var choices := Choices(params, OrEmpty(s.embedded), None);
    if s.overlay.None? || !Restorable(s.overlay.value) then choices
    else
      var options := s.overlay.value.1;
      Choices(
        params.(target := Some(Sbc),
                overlayOptions := if options.Some? && options.value != map[] then
                    TrimRight(IsSpace, yaml.dump(options.value)) else ""),
        choices.embedded,
        Some(s.overlay.value.0))
  }

  /** An overlay that says something; options count even when they are an empty mapping. */
  predicate Restorable(o: (Overlay, Option<Mapping>)) { o.0.name != "" || o.0.image != "" || o.1.Some? }

  method ReadSchematic(yaml: Yaml, s: Schematic) returns (choices: Choices)
    ensures choices == FromSchematic(yaml, s)
  {
    hide Join, TrimRight;
    var params := START.(cmdline := Join(if s.kernelArgs.Some? then s.kernelArgs.value else []), cmdlineSet := true);
    params := params.(extensions := Some(if s.extensions.Some? then s.extensions.value else []));
    if Truthy(s.bootloader).Some? && s.bootloader != Some("none") {
      params := params.(bootloader := s.bootloader);
    }
    choices := Choices(params, OrEmpty(s.embedded), None);
    if s.overlay.Some? && Restorable(s.overlay.value) {
      params := params.(target := Some(Sbc));
      choices := choices.(overlay := Some(s.overlay.value.0));
      var options := s.overlay.value.1;
      if options.Some? && |options.value| > 0 {
        params := params.(overlayOptions := TrimRight(IsSpace, yaml.dump(options.value)));
      }
      choices := choices.(params := params);
    }
  }

  /** The overlay survives: there is none, or it says something and its options are not an empty mapping. */
  predicate OverlaySurvives(s: Schematic) {
    s.overlay.Some? ==> Restorable(s.overlay.value) && s.overlay.value.1 != Some(map[])
  }

  /** A wizard restored from the schematic it built builds one with the same kernel arguments, extensions and embedded
  configuration; with the same bootloader exactly when that is not "none", and with the same overlay exactly when
  that says something. */
  lemma RestoredBuildsTheSame(yaml: Yaml, p: Params, embedded: string, overlay: Option<Overlay>)
    requires RoundTrips(yaml) && ToSchematic(yaml, p, embedded, overlay).Some?
    ensures var s := ToSchematic(yaml, p, embedded, overlay).value;
      var c := FromSchematic(yaml, s);
      var again := ToSchematic(yaml, c.params, c.embedded, c.overlay);
      && again.Some?
      && again.value.kernelArgs == s.kernelArgs
      && again.value.extensions == s.extensions
      && again.value.embedded == s.embedded
      && (again.value.bootloader == s.bootloader <==> s.bootloader != Some("none"))
      && (again.value.overlay == s.overlay <==> OverlaySurvives(s))
  {
    BuiltSchematic(yaml, p, embedded, overlay);
    hide ToSchematic, RoundTrips;
    RebuildsTheSame(yaml, ToSchematic(yaml, p, embedded, overlay).value);
  }

  /** What a schematic of the wizard looks like. */
  ghost predicate Canonical(s: Schematic) {
    && (s.kernelArgs.Some? ==> s.kernelArgs.value != [] && forall w :: w in s.kernelArgs.value ==> IsWord(IsSpace, w))
    && (s.extensions.Some? ==> s.extensions.value != [] && SortStrings(s.extensions.value) == s.extensions.value)
    && s.bootloader != Some("") && s.bootloader != Some("auto")
    && (s.embedded.Some? ==> Trim(IsSpace, s.embedded.value) != "")
  }

  lemma ArgsAreWords(cmdline: string)
    ensures ArgsOf(cmdline).Some? ==>
      ArgsOf(cmdline).value != [] && forall w :: w in ArgsOf(cmdline).value ==> IsWord(IsSpace, w)
  {
    hide IsSpace, IsWord;
  }

  lemma ExtensionsAreSorted(e: Option<seq<string>>)
    ensures ExtensionsOf(e).Some? ==>
      ExtensionsOf(e).value != [] && SortStrings(ExtensionsOf(e).value) == ExtensionsOf(e).value
  {
    hide SortStrings;
    if e.Some? {
      SortedTwice(e.value);
    }
  }

  lemma BootloadersAreReal(b: Option<string>)
    ensures BootloaderOf(b) != Some("") && BootloaderOf(b) != Some("auto")
  {
  }

  lemma BuiltSchematic(yaml: Yaml, p: Params, embedded: string, overlay: Option<Overlay>)
    requires ToSchematic(yaml, p, embedded, overlay).Some?
    ensures Canonical(ToSchematic(yaml, p, embedded, overlay).value)
  {
    ArgsAreWords(p.cmdline);
    ExtensionsAreSorted(p.extensions);
    BootloadersAreReal(p.bootloader);
    hide SortStrings, Trim, IsSpace, IsWord, OverlayOf, ArgsOf, ExtensionsOf, BootloaderOf;
  }

  lemma PartsBack(s: Schematic)
    requires Canonical(s)
    ensures ArgsOf(Join(if s.kernelArgs.Some? then s.kernelArgs.value else [])) == s.kernelArgs
    ensures ExtensionsOf(Some(if s.extensions.Some? then s.extensions.value else [])) == s.extensions
    ensures EmbeddedOf(OrEmpty(s.embedded)) == s.embedded
    ensures var b := if Truthy(s.bootloader).Some? && s.bootloader != Some("none") then s.bootloader else None;
      BootloaderOf(b) == s.bootloader <==> s.bootloader != Some("none")
  {
    SplitOfJoin(IsSpace, if s.kernelArgs.Some? then s.kernelArgs.value else []);
    assert Trim(IsSpace, "") == "";
    hide Split, Join, SortStrings, Trim, IsSpace, IsWord;
  }

  lemma OverlayBack(yaml: Yaml, o: Option<(Overlay, Option<Mapping>)>)
    requires RoundTrips(yaml)
    ensures var some := o.Some? && Restorable(o.value);
      var options := if some && o.value.1.Some? && o.value.1.value != map[] then
          TrimRight(IsSpace, yaml.dump(o.value.1.value)) else "";
      var again := OverlayOf(yaml, some, options, if some then Some(o.value.0) else None);
      again.Some? && (again.value == o <==> (o.Some? ==> Restorable(o.value) && o.value.1 != Some(map[])))
  {
    hide TrimRight, IsSpace;
  }

  lemma RebuildsTheSame(yaml: Yaml, s: Schematic)
    requires RoundTrips(yaml) && Canonical(s)
    ensures var c := FromSchematic(yaml, s);
      var again := ToSchematic(yaml, c.params, c.embedded, c.overlay);
      && again.Some?
      && again.value.kernelArgs == s.kernelArgs
      && again.value.extensions == s.extensions
      && again.value.embedded == s.embedded
      && (again.value.bootloader == s.bootloader <==> s.bootloader != Some("none"))
      && (again.value.overlay == s.overlay <==> OverlaySurvives(s))
  {
    PartsBack(s);
    OverlayBack(yaml, s.overlay);
    hide ArgsOf, ExtensionsOf, EmbeddedOf, BootloaderOf, OverlayOf, Join, TrimRight, IsSpace, Canonical, RoundTrips,
        Restorable,
      OrEmpty, Truthy;
  }

  /** Sorting what is sorted changes nothing. */
  lemma SortedTwice(s: seq<string>)
    ensures SortStrings(SortStrings(s)) == SortStrings(s)
    ensures s != [] ==> SortStrings(s) != []
  {
    CompareStringsIsTotalOrder();
    hide SortStrings, CompareStrings;
    SortedPermutationUnique(CompareStrings, SortStrings(SortStrings(s)), SortStrings(s));
    assert |multiset(SortStrings(s))| == |multiset(s)|;
  }

  /** The choice "none" is lost: the schematic built again has no bootloader. */
  lemma NoneIsLost(yaml: Yaml)
    requires RoundTrips(yaml)
    ensures var s := ToSchematic(yaml, START.(bootloader := Some("none")), "", None).value;
      var c := FromSchematic(yaml, s);
      && s.bootloader == Some("none")
      && ToSchematic(yaml, c.params, c.embedded, c.overlay).value.bootloader == None
  {
    assert "none" != "auto" && "none" != "";
  }

  /** Overlay options that are an empty mapping are lost: the schematic built again has the overlay without options. */
  lemma EmptyOptionsAreLost(yaml: Yaml)
    requires RoundTrips(yaml) && yaml.load("{}") == Some(map[])
    ensures var overlay := Overlay("rpi_generic", "siderolabs/sbc-raspberrypi");
      var s := ToSchematic(yaml, START.(target := Some(Sbc), overlayOptions := "{}"), "", Some(overlay));
      && s.Some? && s.value.overlay == Some((overlay, Some(map[])))
      && var c := FromSchematic(yaml, s.value);
         var again := ToSchematic(yaml, c.params, c.embedded, c.overlay);
         again.Some? && again.value.overlay == Some((overlay, None))
  {
  }

  // ---------------------------------------------------------------- the schematic that is built

  /** What a schematic holds of the choices: the words of the command line, the extensions sorted, the bootloader unless
  it is left open, the embedded configuration unless it is blank, and the overlay of a single-board computer with its
  options read as YAML. There is none exactly if these options are no mapping. */
  lemma SchematicHolds(yaml: Yaml, p: Params, embedded: string, overlay: Option<Overlay>)
    ensures var r, overlaid := ToSchematic(yaml, p, embedded, overlay), p.target == Some(Sbc) && overlay.Some?;
      && (r.None? <==> overlaid && p.overlayOptions != "" && yaml.load(p.overlayOptions).None?)
      && (r.Some? ==>
            var s := r.value;
            && (s.kernelArgs.None? <==> forall c :: c in p.cmdline ==> IsSpace(c))
            && (s.kernelArgs.Some? ==> s.kernelArgs.value == Split(IsSpace, p.cmdline))
            && (s.extensions.None? <==> p.extensions.None? || p.extensions == Some([]))
            && (s.extensions.Some? ==>
                  Sorted(CompareStrings, s.extensions.value)
                      && multiset(s.extensions.value) == multiset(p.extensions.value))
            && s.bootloader == (if p.bootloader == Some("") || p.bootloader == Some("auto") then None else p.bootloader)
            && (s.embedded.None? <==> forall c :: c in embedded ==> IsSpace(c))
            && (s.embedded.Some? ==> s.embedded.value == embedded)
            && (s.overlay.Some? <==> overlaid)
            && (s.overlay.Some? ==>
                  && s.overlay.value.0 == overlay.value
                  && s.overlay.value.1 == if p.overlayOptions == "" then None else yaml.load(p.overlayOptions)))
  {
    hide IsSpace, CompareStrings, SortStrings;
    NoWords(p.cmdline);
    Blank(embedded);
    if p.extensions.Some? && p.extensions.value != [] {
      assert |multiset(SortStrings(p.extensions.value))| == |p.extensions.value|;
    }
    hide Split, Trim;
  }

  lemma NoWords(s: string)
    ensures Split(IsSpace, s) == [] <==> forall c :: c in s ==> IsSpace(c)
  {
    hide IsSpace;
    SplitKeepsLetters(IsSpace, s);
    LettersIff(s);
    var words := Split(IsSpace, s);
    if words != [] {
      assert words[0] in words;
      assert Concat(words)[..|words[0]|] == words[0];
    }
  }

  lemma {:induction false} LettersIff(s: string)
    ensures Letters(IsSpace, s) == "" <==> forall c :: c in s ==> IsSpace(c)
  {
    hide IsSpace;
    if s != "" {
      LettersIff(s[1..]);
      assert s == [s[0]] + s[1..];
    }
  }

  lemma Blank(s: string)
    ensures Trim(IsSpace, s) == "" <==> forall c :: c in s ==> IsSpace(c)
  {
    hide IsSpace;
    var before, after := TrimCutsSpace(IsSpace, s);
    TrimIff(IsSpace, s);
    var t := Trim(IsSpace, s);
    hide Trim;
    if t != "" {
      assert s[|before|] == t[0] && !IsSpace(t[0]) && s[|before|] in s;
    } else {
      assert forall c :: c in s ==> c in before || c in after;
    }
  }
}
