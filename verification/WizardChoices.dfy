/** What the wizard's query says and is taken to say, key by key, and which choices belong to which step
(frontend/src/wizard/params.ts). */
module WizardChoices {
  import opened Strings
  import opened Words
  import opened Wizard

  // ---------------------------------------------------------------- white space

  /** The characters that JavaScript calls white space or the end of a line. */
  const WHITE :=
    "\t\n\U{B}\U{C}\r \U{A0}\U{FEFF}\U{1680}\U{2000}\U{2001}\U{2002}\U{2003}\U{2004}\U{2005}\U{2006}\U{2007}"
      + "\U{2008}\U{2009}\U{200A}\U{2028}\U{2029}\U{202F}\U{205F}\U{3000}"

  lemma IsWhiteIff(c: char)
    ensures IsSpace(c) <==> c in WHITE
  {
    if '\t' <= c <= '\r' {
      assert c == WHITE[c as nat - '\t' as nat];
    } else if '\U{2000}' <= c <= '\U{200A}' {
      assert c == WHITE[9 + (c as nat - 0x2000)];
    } else if IsSpace(c) {
      assert WHITE[5] == ' ' && WHITE[6] == '\U{A0}' && WHITE[7] == '\U{FEFF}' && WHITE[8] == '\U{1680}';
      assert WHITE[20] == '\U{2028}' && WHITE[21] == '\U{2029}' && WHITE[22] == '\U{202F}' && WHITE[23] == '\U{205F}';
      assert WHITE[24] == '\U{3000}';
    }
  }

  // ---------------------------------------------------------------- the query

  /** A key that is absent, or has one value. */
  predicate Says(values: Values, text: Option<string>) { values == if text.Some? then [text] else [] }

  function Nonempty(s: Option<string>): Option<string> { if s == Some("") then None else s }

  /** As long as there is no schematic, it is for the query to say what is in it. */
  predicate Open(p: Params) { p.schematicId == None || p.schematicId == Some("") }

  lemma QueryParts(p: Params)
    ensures var q := ToQuery(p);
      && q.target == Field(TargetText(p)) && q.version == Field(p.version) && q.arch == Field(ArchText(p))
      && q.platform == Field(PlatformText(p)) && q.secureBoot == Field(Flag(p.secureBoot))
      && q.schematicId == Field(p.schematicId)
    ensures var q := ToQuery(p);
      if Open(p) then
        && q.board == Field(BoardText(p)) && q.bootloader == Field(p.bootloader) && q.cmdline == Field(Some(p.cmdline))
        && q.cmdlineSet == Field(Flag(p.cmdlineSet)) && q.overlayOptions == Field(Some(p.overlayOptions))
        && q.extensions == ListField(p.extensions)
      else
        && q.board == [] && q.bootloader == [] && q.cmdline == [] && q.cmdlineSet == [] && q.overlayOptions == []
        && q.extensions == []
  {
    hide TargetText, ArchText, PlatformText, BoardText, Flag, ListField;
  }

  lemma FieldSays(value: Option<string>)
    ensures Says(Field(value), Nonempty(value))
  {
  }

  /** What is written for the choices: a platform for metal and the cloud only, a board for its target only, and none of
  what the schematic holds once there is one. */
  lemma QuerySays(p: Params)
    ensures var q := ToQuery(p);
      && Says(q.target,
              match p.target case None => None case Some(Metal) => Some("metal") case Some(Cloud) => Some("cloud")
                                       case Some(Sbc) => Some("sbc"))
      && Says(q.version, Nonempty(p.version))
      && Says(q.arch,
              match p.arch case None => None case Some(Amd64) => Some("amd64") case Some(Arm64) => Some("arm64"))
      && Says(q.platform, if p.target == Some(Metal) then Some("metal") else if p.target == Some(Cloud) then
                          Nonempty(p.platform) else None)
      && Says(q.secureBoot, if p.secureBoot then Some("true") else None)
      && Says(q.schematicId, Nonempty(p.schematicId))
    ensures var q := ToQuery(p);
      && Says(q.board, if Open(p) && p.target == Some(Sbc) then Nonempty(p.board) else None)
      && Says(q.bootloader, if Open(p) then Nonempty(p.bootloader) else None)
      && Says(q.cmdline, if Open(p) && p.cmdline != "" then Some(p.cmdline) else None)
      && Says(q.cmdlineSet, if Open(p) && p.cmdlineSet then Some("true") else None)
      && Says(q.overlayOptions, if Open(p) && p.overlayOptions != "" then Some(p.overlayOptions) else None)
  {
    QueryParts(p);
    hide Field, ToQuery, ListField, Says;
    FieldSays(TargetText(p));
    FieldSays(p.version);
    FieldSays(ArchText(p));
    FieldSays(PlatformText(p));
    FieldSays(Flag(p.secureBoot));
    FieldSays(p.schematicId);
    FieldSays(BoardText(p));
    FieldSays(p.bootloader);
    FieldSays(Some(p.cmdline));
    FieldSays(Flag(p.cmdlineSet));
    FieldSays(Some(p.overlayOptions));
    assert Says([], None) by { SaysNothing(); }
  }

  lemma SaysNothing()
    ensures Says([], None)
  {
  }

  /** The extensions that were chosen, a dash for none of them, and nothing as long as nothing was chosen. */
  lemma QueryLists(p: Params)
    ensures var q := ToQuery(p);
      && (!Open(p) || p.extensions == None ==> q.extensions == [])
      && (Open(p) && p.extensions == Some([]) ==> q.extensions == [Some("-")])
      && (Open(p) && p.extensions.Some? && p.extensions.value != [] ==>
            && |q.extensions| == |p.extensions.value|
            && forall i :: 0 <= i < |q.extensions| ==> q.extensions[i] == Some(p.extensions.value[i]))
  {
    QueryParts(p);
    hide ToQuery;
  }

  /** What any query is taken to say: the first value of each key, but for extensions, of which all that are not empty
  count; one `v` is cut off a version, and platform and board count for their own targets only. */
  lemma QueryMeans(q: Query)
    ensures var p := ParseQuery(q);
      && (p.target == Some(Metal) <==> First(q.target) == Some("metal"))
      && (p.target == Some(Cloud) <==> First(q.target) == Some("cloud"))
      && (p.target == Some(Sbc) <==> First(q.target) == Some("sbc"))
      && (p.arch == Some(Amd64) <==> First(q.arch) == Some("amd64"))
      && (p.arch == Some(Arm64) <==> First(q.arch) == Some("arm64"))
      && p.platform == (if First(q.target) == Some("cloud") then Nonempty(First(q.platform)) else None)
      && p.board == (if First(q.target) == Some("sbc") then Nonempty(First(q.board)) else None)
      && (p.secureBoot <==> First(q.secureBoot) == Some("true"))
      && (p.cmdlineSet <==> Nonempty(First(q.cmdlineSet)).Some?)
      && p.bootloader == Nonempty(First(q.bootloader)) && p.schematicId == Nonempty(First(q.schematicId))
      && (First(q.cmdline).None? ==> p.cmdline == "")
      && (First(q.cmdline).Some? ==> p.cmdline == Trim(IsSpace, First(q.cmdline).value))
      && (First(q.overlayOptions).None? ==> p.overlayOptions == "")
      && (First(q.overlayOptions).Some? ==> p.overlayOptions == Trim(IsSpace, First(q.overlayOptions).value))
    ensures var p := ParseQuery(q); forall v ::
      && (First(q.version) == Some("v" + v) ==> p.version == Nonempty(Some(v)))
      && (First(q.version) == Some(v) && !("v" <= v) ==> p.version == Nonempty(Some(v)))
    ensures First(q.version).None? ==> ParseQuery(q).version.None?
  {
    hide NonEmpty, WithoutDash;
    assert Trim(IsSpace, "") == "";
    forall v ensures ("v" + v)[1..] == v {
    }
  }

  /** The extensions that are chosen: nothing as long as all values are empty, and else those that are not a dash,
  in order. */
  lemma ExtensionsMean(q: Query)
    ensures ParseQuery(q).extensions.None? <==> forall v :: v in q.extensions ==> v == None || v == Some("")
    ensures ParseQuery(q).extensions.Some? ==> IsSelection(q.extensions, ParseQuery(q).extensions.value)
  {
    NonEmptySelects(q.extensions);
    SelectTwice(q.extensions);
  }

  /** The chosen ones are the values that count, in order. */
  predicate IsSelection(values: Values, chosen: seq<string>)
    decreases |values|
  {
    if values == [] then chosen == []
    else if values[0] == None || values[0] == Some("") || values[0] == Some("-") then IsSelection(values[1..], chosen)
    else chosen != [] && values[0] == Some(chosen[0]) && IsSelection(values[1..], chosen[1..])
  }

  lemma {:induction false} NonEmptySelects(values: Values)
    ensures NonEmpty(values) == [] <==> forall v :: v in values ==> v == None || v == Some("")
  {
    if values != [] {
      NonEmptySelects(values[1..]);
      assert values[0] in values && forall v :: v in values[1..] ==> v in values;
      if NonEmpty(values) == [] {
        assert NonEmpty(values[1..]) == [];
        forall v | v in values ensures v == None || v == Some("") {
          assert v == values[0] || v in values[1..];
        }
      } else if values[0] == None || values[0] == Some("") {
        assert NonEmpty(values) == [] + NonEmpty(values[1..]);
      }
    }
  }

  lemma {:induction false} SelectTwice(values: Values)
    ensures IsSelection(values, WithoutDash(NonEmpty(values)))
  {
    if values != [] {
      SelectTwice(values[1..]);
      var rest := NonEmpty(values[1..]);
      if values[0].Some? && values[0].value != "" {
        var x := values[0].value;
        assert ([x] + rest)[1..] == rest;
        assert WithoutDash([x] + rest) == (if x != "-" then [x] else []) + WithoutDash(rest);
        assert [] + WithoutDash(rest) == WithoutDash(rest);
        assert ([x] + WithoutDash(rest))[1..] == WithoutDash(rest);
      } else {
        assert [] + rest == rest;
      }
    }
  }

  // ---------------------------------------------------------------- steps

  const NOTHING := Params(None, None, None, None, None, false, None, "", false, None, "", None)

  /** Nothing but the choices made on a step. */
  function MadeOn(s: Step, p: Params): Params {
    match s
    case TargetStep => NOTHING.(target := p.target)
    case VersionStep => NOTHING.(version := p.version)
    case PlatformStep => NOTHING.(platform := p.platform)
    case BoardStep => NOTHING.(board := p.board)
    case ArchStep => NOTHING.(arch := p.arch, secureBoot := p.secureBoot)
    case ExtensionsStep => NOTHING.(extensions := p.extensions)
    case CustomizationStep =>
      NOTHING.(cmdline := p.cmdline, cmdlineSet := p.cmdlineSet, bootloader := p.bootloader,
               overlayOptions := p.overlayOptions)
    case FinalStep => NOTHING.(schematicId := p.schematicId)
  }

  /** Going back to a step keeps what was chosen on the ones before it, and nothing of what was chosen on it or
  later. */
  lemma ClearsFrom(s: Step, t: Step, p: Params)
    ensures MadeOn(t, ClearFrom(s, p)) == if Index(t) < Index(s) then MadeOn(t, p) else NOTHING
  {
  }

  /** The choices are what was chosen on the steps. */
  lemma MadeOnSteps(p: Params, r: Params)
    requires forall t: Step :: MadeOn(t, p) == MadeOn(t, r)
    ensures p == r
  {
    assert MadeOn(TargetStep, p) == MadeOn(TargetStep, r) && MadeOn(VersionStep, p) == MadeOn(VersionStep, r);
    assert MadeOn(PlatformStep, p) == MadeOn(PlatformStep, r) && MadeOn(BoardStep, p) == MadeOn(BoardStep, r);
    assert MadeOn(ArchStep, p) == MadeOn(ArchStep, r) && MadeOn(ExtensionsStep, p) == MadeOn(ExtensionsStep, r);
    assert MadeOn(CustomizationStep, p) == MadeOn(CustomizationStep, r) && MadeOn(FinalStep, p) == MadeOn(FinalStep, r);
  }

  // ---------------------------------------------------------------- a schematic that is read back

  /** The choices that a schematic is read back as: its arguments with single blanks between them, its extensions, its
  bootloader unless it has none, and an overlay if it has a name, an image or options. */
  lemma SchematicMeans(yaml: Yaml, s: Schematic)
    ensures var c := FromSchematic(yaml, s);
      && c.params.cmdline == (if s.kernelArgs.None? then "" else Join(s.kernelArgs.value)) && c.params.cmdlineSet
      && c.params.extensions == Some(if s.extensions.None? then [] else s.extensions.value)
      && c.params.bootloader == (if s.bootloader == Some("none") then None else Nonempty(s.bootloader))
      && c.embedded == (if s.embedded.None? then "" else s.embedded.value)
      && (c.overlay.Some? <==> s.overlay.Some? && var (o, options) := s.overlay.value;
            !(o.name == "" && o.image == "" && options.None?))
      && (c.overlay.Some? ==> c.overlay.value == s.overlay.value.0)
      && (c.params.target == if c.overlay.Some? then Some(Sbc) else None)
      && (c.overlay.Some? && s.overlay.value.1.Some? && s.overlay.value.1.value != map[] ==>
            c.params.overlayOptions == TrimRight(IsSpace, yaml.dump(s.overlay.value.1.value)))
      && (c.overlay.None? || s.overlay.value.1 == None || s.overlay.value.1 == Some(map[]) ==>
          c.params.overlayOptions == "")
      && !c.params.secureBoot
      && c.params == NOTHING.(target := c.params.target, cmdline := c.params.cmdline, cmdlineSet := true,
                              extensions := c.params.extensions, bootloader := c.params.bootloader,
                              overlayOptions := c.params.overlayOptions)
  {
    assert Join([]) == "";
    hide Join, TrimRight;
  }
}
