/** The whole script (applyTheme.js lines 1-83): list the themes, ask the user
    for one, read it, read the settings, merge, write. The file system and the
    prompt are inputs: an `Env` says what each read returns, what the user
    answers and whether the final write succeeds. Every failure is terminal, and
    the settings file is written only at the very end. */
module Script {
  import opened Common
  import opened JsonValues
  import opened ThemeLister
  import opened SettingsMerge

  /** What the prompt of lines 28-35 resolves to. */
  datatype Answer = Cancelled | Picked(name: string)

  /** What reading and parsing one file gives. `Missing` is the ENOENT error. */
  datatype FileRead = Missing | Unreadable | Malformed | Contents(doc: Json)

  /** Everything the script observes from outside. `themeFiles` maps file names
      inside the themes directory to what reading them gives. */
  datatype Env = Env(
    themesDir: DirRead,
    answer: Answer,
    themeFiles: map<string, FileRead>,
    settingsFile: FileRead,
    writeFails: bool)

  /** The end of a run: the settings document written for the chosen theme, or
      the failure that stopped the process. Nothing is written after a failure,
      except that a failed write may already have truncated the file. */
  datatype Outcome = Written(theme: string, settings: Json) | Failed(error: Error)

  /** Reading `themes/<name>.json` (lines 37-40). */
  function ThemeFile(env: Env, name: string): FileRead {
    if ThemePath(name) in env.themeFiles then env.themeFiles[ThemePath(name)] else Missing
  }

  /** Lines 59-69 on the settings object `d`. Reading a property of a null theme
      throws a TypeError before anything is assigned. */
  function MergeObject(d: Dict<Prop>, theme: Json): Result<Json>
    requires d.Valid()
  {
    if theme.Null? then Failure(MergeTypeError) else Success(Serialize(Applied(d, theme)))
  }

  /** Lines 59-69 on a parsed settings document. Reading a property of null
      settings throws, and so does assigning a property of a primitive in strict
      mode; an array accepts the two assignments but JSON.stringify writes only
      its elements. */
  function MergeInto(settings: Json, theme: Json): Result<Json> {
    match settings
    case Obj(ms) => MergeObject(Load(ms), theme)
    case Arr(xs) => if theme.Null? then Failure(MergeTypeError) else Success(Arr(xs))
    case _ => Failure(MergeTypeError)
  }

  /** Lines 50-69: a missing settings file leaves the object `{}` of line 51,
      any other read error and a parse error are fatal. */
  function NewSettings(file: FileRead, theme: Json): Result<Json> {
    match file
    case Unreadable => Failure(SettingsReadError)
    case Malformed => Failure(SettingsParseError)
    case Missing => MergeObject(EmptyDict(), theme)
    case Contents(doc) => MergeInto(doc, theme)
  }

  /** The run, stage by stage. */
  function Pipeline(env: Env): Outcome {
    match ListThemes(env.themesDir)
    case Failure(e) => Failed(e)
    case Success(_) =>
      match env.answer
      case Cancelled => Failed(SelectionError)
      case Picked(name) =>
        match ThemeFile(env, name)
        case Missing => Failed(ThemeReadError)
        case Unreadable => Failed(ThemeReadError)
        case Malformed => Failed(ThemeParseError)
        case Contents(theme) =>
          match NewSettings(env.settingsFile, theme)
          case Failure(e) => Failed(e)
          case Success(doc) => if env.writeFails then Failed(SettingsWriteError) else Written(name, doc)
  }

  /** Lines 50-69 with the settings object changed in place. */
  method MergeSettings(file: FileRead, theme: Json) returns (r: Result<Json>)
    ensures r == NewSettings(file, theme)
  {
    if file.Unreadable? {
      return Failure(SettingsReadError);
    }
    if file.Malformed? {
      return Failure(SettingsParseError);
    }
    if file.Contents? && !file.doc.Obj? {
      if theme.Null? || !file.doc.Arr? {
        return Failure(MergeTypeError);
      }
      return Success(file.doc);
    }
    var settings := new Settings.Empty();
    if file.Contents? {
      settings := new Settings.Parsed(file.doc.members);
    }
    var ok := settings.ApplyTheme(theme);
    if !ok {
      return Failure(MergeTypeError);
    }
    return Success(Serialize(settings.View()));
  }

  /** The script itself, with the settings object changed in place. */
  method Run(env: Env) returns (out: Outcome)
    ensures out == Pipeline(env)
  {
    var listed := ListThemes(env.themesDir);
    if listed.Failure? {
      return Failed(listed.error);
    }
    if env.answer.Cancelled? {
      return Failed(SelectionError);
    }
    var name := env.answer.name;
    var themeFile := ThemeFile(env, name);
    if themeFile.Malformed? {
      return Failed(ThemeParseError);
    }
    if !themeFile.Contents? {
      return Failed(ThemeReadError);
    }
    var merged := MergeSettings(env.settingsFile, themeFile.doc);
    if merged.Failure? {
      return Failed(merged.error);
    }
    if env.writeFails {
      return Failed(SettingsWriteError);
    }
    return Written(name, merged.value);
  }

  /** The user can only pick one of the names offered. */
  ghost predicate AnswerIsOffered(env: Env) {
    env.answer.Picked? ==>
      env.themesDir.Listed? && env.answer.name in ThemeNames(ThemeFiles(env.themesDir.entries))
  }

  /** An unreadable themes directory stops the run before the prompt, and so does
      a directory without theme files, whatever the rest of the environment is. */
  lemma ListingStops(env: Env)
    ensures env.themesDir.DirUnreadable? ==> Pipeline(env) == Failed(DirectoryReadError)
    ensures env.themesDir.Listed? && (forall e :: e in env.themesDir.entries ==> !IsThemeFile(e)) ==>
      Pipeline(env) == Failed(NoThemesFoundError)
  {
    ListThemesOutcome(env.themesDir);
  }

  /** A run that writes names a theme whose file is in the themes directory. */
  lemma WrittenThemeWasListed(env: Env)
    requires AnswerIsOffered(env) && Pipeline(env).Written?
    ensures env.answer == Picked(Pipeline(env).theme)
    ensures ThemePath(Pipeline(env).theme) in env.themesDir.entries
  {
    ListThemesOutcome(env.themesDir);
    OfferedIffListed(env.themesDir.entries, env.answer.name);
  }

  /** A missing settings file is treated exactly as one holding `{}`. */
  lemma MissingSettingsIsEmpty(env: Env)
    requires env.settingsFile.Missing?
    ensures Pipeline(env) == Pipeline(env.(settingsFile := Contents(Obj([]))))
  {
    var e: Dict<Json> := EmptyDict();
    assert ObjectOf<Json>([]) == e;
    assert Lift(e) == EmptyDict();
  }

  /** `RerunWritesSame` lifted to the parsed document: merging the same theme
      into an object document this merge produced gives that document back. */
  lemma MergeObjectAgain(d: Dict<Prop>, theme: Json)
    requires d.Valid() && MergeObject(d, theme).Success?
    ensures MergeInto(MergeObject(d, theme).value, theme) == MergeObject(d, theme)
  {
    RerunWritesSame(d, theme);
    MergeIntoSerialized(Applied(d, theme), theme);
  }

  /** A written object document is merged as the object parsed from it. */
  lemma MergeIntoSerialized(d: Dict<Prop>, theme: Json)
    ensures MergeInto(Serialize(d), theme) == MergeObject(Load(Serialize(d).members), theme)
  {
  }

  /** Running the script again with the same answer, on the settings file the
      first run wrote, writes the same document. */
  lemma PipelineRerun(env: Env)
    requires Pipeline(env).Written?
    ensures Pipeline(env.(settingsFile := Contents(Pipeline(env).settings))) == Pipeline(env)
  {
    var theme := ThemeFile(env, env.answer.name).doc;
    match env.settingsFile
    case Missing =>
      MergeObjectAgain(EmptyDict(), theme);
    case Contents(doc) =>
      if doc.Obj? {
        MergeObjectAgain(Load(doc.members), theme);
      }
  }
}

/** Two worked examples: a fresh workspace, and a workspace whose settings
    already hold an unrelated property and a colour the theme overrides. */
module Scenarios {
  import opened Common
  import opened JsonValues
  import opened SettingsMerge
  import opened Script

  /** A theme file holding colour customizations and then an accent colour. */
  function ThemeOf(colors: Json, accent: Json): Json {
    Obj([(ColorCustomizations, colors), (PeacockColor, accent)])
  }

  /** A theme with colour customizations `colors` and accent colour `accent`,
      in that order, answers property reads with them. */
  lemma ThemeFields(colors: Json, accent: Json)
    ensures Field(ThemeOf(colors, accent), ColorCustomizations) == Defined(colors)
    ensures Field(ThemeOf(colors, accent), PeacockColor) == Defined(accent)
  {
    var ms := [(ColorCustomizations, colors), (PeacockColor, accent)];
    assert |PeacockColor| != |ColorCustomizations|;
    assert ms[..|ms| - 1] == [(ColorCustomizations, colors)];
    assert Lookup(ms, ColorCustomizations) == Lookup([(ColorCustomizations, colors)], ColorCustomizations);
  }

  lemma {:induction false} MembersIgnore(ks: seq<string>, vals: map<string, Json>, k: string, v: Json)
    requires k !in ks
    ensures Members(ks, vals[k := v]) == Members(ks, vals)
  {
    if ks != [] {
      var pre := ks[..|ks| - 1];
      assert k !in pre by {
        forall i | 0 <= i < |pre| ensures pre[i] != k {
          assert pre[i] == ks[i];
        }
      }
      MembersIgnore(pre, vals, k, v);
    }
  }

  /** Parsing members with distinct names and listing the object gives them back. */
  lemma {:induction false} MembersOfObjectOf(ms: seq<(string, Json)>)
    requires DistinctNames(ms)
    ensures MembersOf(ObjectOf(ms)) == ms
  {
    if ms != [] {
      var pre, k, v := ms[..|ms| - 1], ms[|ms| - 1].0, ms[|ms| - 1].1;
      assert ms == pre + [(k, v)];
      DistinctNamesPrefix(ms);
      MembersOfObjectOf(pre);
      ObjectOfKeys(pre);
      var p := ObjectOf(pre);
      assert k !in p.keys by {
        forall i | 0 <= i < |pre| ensures p.keys[i] != k {
          assert p.keys[i] == ms[i].0;
        }
      }
      PutAllSnoc(EmptyDict(), pre, k, v);
      MembersIgnore(p.keys, p.vals, k, v);
      assert Members(p.keys + [k], p.vals[k := v]) == Members(p.keys, p.vals[k := v]) + [(k, v)] by {
        assert (p.keys + [k])[..|p.keys|] == p.keys;
      }
    }
  }

  /** The document written for an object holding just the two managed
      properties, both defined, in that order. */
  lemma SerializeManaged(colors: Json, accent: Json)
    ensures Serialize(Dict([ColorCustomizations, PeacockColor],
      map[ColorCustomizations := Defined(colors), PeacockColor := Defined(accent)])) ==
      Obj([(ColorCustomizations, colors), (PeacockColor, accent)])
  {
    var ks := [ColorCustomizations, PeacockColor];
    var vals := map[ColorCustomizations := Defined(colors), PeacockColor := Defined(accent)];
    assert ks[..1] == [ColorCustomizations] && [ColorCustomizations][..0] == [];
    assert DefinedKeys([ColorCustomizations], vals) == [ColorCustomizations];
    assert DefinedKeys(ks, vals) == ks;
    var x := map[ColorCustomizations := colors, PeacockColor := accent];
    assert DefinedVals(vals) == x;
    assert Members([ColorCustomizations], x) == [(ColorCustomizations, colors)];
    assert Members(ks, x) == [(ColorCustomizations, colors), (PeacockColor, accent)];
  }

  /** Lines 60-66 on the empty object of line 51 add the colour customizations
      and then the accent colour. */
  lemma AppliedToEmpty(theme: Json)
    ensures Applied(EmptyDict(), theme) == Dict([ColorCustomizations, PeacockColor],
      map[ColorCustomizations := Defined(Obj(MembersOf(MergedColors(EmptyDict(), theme)))),
          PeacockColor := Field(theme, PeacockColor)])
  {
  }

  /** With no settings file, a theme holding the colour customizations and the
      accent colour, in that order, is written out as the theme's member list,
      in that order. */
  lemma FreshWorkspace(colors: seq<(string, Json)>, accent: Json)
    requires DistinctNames(colors)
    ensures NewSettings(Missing, ThemeOf(Obj(colors), accent)) == Success(ThemeOf(Obj(colors), accent))
  {
    var theme := ThemeOf(Obj(colors), accent);
    ThemeFields(Obj(colors), accent);
    assert MergedColors(EmptyDict(), theme) == ObjectOf(colors);
    MembersOfObjectOf(colors);
    AppliedToEmpty(theme);
    SerializeManaged(Obj(colors), accent);
  }

  /** An object holding `k`, the colour customizations and the accent colour. */
  function Three(k: string, v: Json, colors: Json, accent: Json): Dict<Json> {
    Dict([k, ColorCustomizations, PeacockColor], map[k := v, ColorCustomizations := colors, PeacockColor := accent])
  }

  lemma ThreeValid(k: string, v: Json, colors: Json, accent: Json)
    requires k != ColorCustomizations && k != PeacockColor
    ensures Three(k, v, colors, accent).Valid()
  {
    assert |PeacockColor| != |ColorCustomizations|;
  }

  lemma ThreeMembers(k: string, v: Json, colors: Json, accent: Json)
    requires k != ColorCustomizations && k != PeacockColor
    ensures MembersOf(Three(k, v, colors, accent)) == [(k, v), (ColorCustomizations, colors), (PeacockColor, accent)]
  {
    var x := Three(k, v, colors, accent);
    assert |PeacockColor| != |ColorCustomizations|;
    MembersAt(x.keys, x.vals);
    var ms := MembersOf(x);
    assert ms[0] == (k, v) && ms[1] == (ColorCustomizations, colors) && ms[2] == (PeacockColor, accent);
  }

  lemma ThreeLifted(k: string, v: Json, colors: Json, accent: Json)
    ensures Lift(Three(k, v, colors, accent)) == Dict([k, ColorCustomizations, PeacockColor],
      map[k := Defined(v), ColorCustomizations := Defined(colors), PeacockColor := Defined(accent)])
  {
  }

  /** The document written for three defined properties, in order. */
  lemma SerializeThree(k: string, v: Json, colors: Json, accent: Json)
    requires k != ColorCustomizations && k != PeacockColor
    ensures Serialize(Dict([k, ColorCustomizations, PeacockColor],
      map[k := Defined(v), ColorCustomizations := Defined(colors), PeacockColor := Defined(accent)])) ==
      Obj([(k, v), (ColorCustomizations, colors), (PeacockColor, accent)])
  {
    ThreeValid(k, v, colors, accent);
    ThreeLifted(k, v, colors, accent);
    ThreeMembers(k, v, colors, accent);
    DefinedPartOfLift(Three(k, v, colors, accent));
  }

  lemma CopyOne(d: Dict<Json>, k: string, v: Json)
    ensures PutAll(d, [(k, v)]) == Put(d, k, v)
  {
    assert [(k, v)][..0] == [];
  }

  /** The settings object parsed from an unrelated property followed by the
      colour customizations. */
  lemma LoadTwo(k: string, v: Json, colors: Json)
    requires k != ColorCustomizations
    ensures Load([(k, v), (ColorCustomizations, colors)]) ==
      Dict([k, ColorCustomizations], map[k := Defined(v), ColorCustomizations := Defined(colors)])
  {
    var ms := [(k, v), (ColorCustomizations, colors)];
    assert ms[..|ms| - 1] == [(k, v)];
    CopyOne(EmptyDict(), k, v);
    assert PutAll(EmptyDict(), ms) == Put(Put(EmptyDict(), k, v), ColorCustomizations, colors);
    var x := ObjectOf(ms);
    assert x.vals == map[k := v, ColorCustomizations := colors];
    assert Lift(x).vals == map[k := Defined(v), ColorCustomizations := Defined(colors)];
  }

  /** The settings object holding property `k` and then one colour. */
  function SettingsOf(k: string, v: Json, color: string, was: Json): Dict<Prop> {
    Dict([k, ColorCustomizations], map[k := Defined(v), ColorCustomizations := Defined(Obj([(color, was)]))])
  }

  lemma ExistingColors(k: string, v: Json, color: string, was: Json, now: Json, accent: Json)
    ensures MembersOf(MergedColors(SettingsOf(k, v, color, was), ThemeOf(Obj([(color, now)]), accent))) == [(color, now)]
  {
    ThemeFields(Obj([(color, now)]), accent);
    var before := Dict([color], map[color := was]);
    CopyOne(EmptyDict(), color, was);
    assert ObjectOf([(color, was)]) == before;
    CopyOne(before, color, now);
    var after := Dict([color], map[color := now]);
    assert before.vals[color := now] == after.vals;
    assert SpreadMerge(Defined(Obj([(color, was)])), Defined(Obj([(color, now)]))) == after;
    assert Get(SettingsOf(k, v, color, was), ColorCustomizations) == Defined(Obj([(color, was)]));
    assert [color][..0] == [];
    assert Members([color], after.vals) == Members([], after.vals) + [(color, now)];
  }

  /** Lines 60-66 on an object holding property `k` and then the colour
      customizations: both assignments of line 60 and 66 keep that order and
      append the accent colour. */
  lemma AppliedToTwo(k: string, p: Prop, c: Prop, theme: Json)
    requires k != ColorCustomizations && k != PeacockColor
    ensures var d := Dict([k, ColorCustomizations], map[k := p, ColorCustomizations := c]);
      Applied(d, theme) == Dict([k, ColorCustomizations, PeacockColor],
        map[k := p, ColorCustomizations := Defined(Obj(MembersOf(MergedColors(d, theme)))),
            PeacockColor := Field(theme, PeacockColor)])
  {
    var d := Dict([k, ColorCustomizations], map[k := p, ColorCustomizations := c]);
    var colors := Defined(Obj(MembersOf(MergedColors(d, theme))));
    var d1 := Dict([k, ColorCustomizations], map[k := p, ColorCustomizations := colors]);
    assert d.vals[ColorCustomizations := colors] == d1.vals;
    assert [k, ColorCustomizations] + [PeacockColor] == [k, ColorCustomizations, PeacockColor];
  }

  /** Settings holding an unrelated property and one colour, merged with a theme
      that sets that colour and an accent colour: the unrelated property stays
      first, the colour takes the theme's value, and the accent colour is
      appended. */
  lemma ExistingWorkspace(k: string, v: Json, color: string, was: Json, now: Json, accent: Json)
    requires k != ColorCustomizations && k != PeacockColor
    ensures NewSettings(Contents(Obj([(k, v), (ColorCustomizations, Obj([(color, was)]))])),
        ThemeOf(Obj([(color, now)]), accent)) ==
      Success(Obj([(k, v), (ColorCustomizations, Obj([(color, now)])), (PeacockColor, accent)]))
  {
    var theme := ThemeOf(Obj([(color, now)]), accent);
    var d := SettingsOf(k, v, color, was);
    LoadTwo(k, v, Obj([(color, was)]));
    assert NewSettings(Contents(Obj([(k, v), (ColorCustomizations, Obj([(color, was)]))])), theme) ==
      MergeObject(d, theme);
    ExistingColors(k, v, color, was, now, accent);
    ThemeFields(Obj([(color, now)]), accent);
    AppliedToTwo(k, Defined(v), Defined(Obj([(color, was)])), theme);
    var a := Dict([k, ColorCustomizations, PeacockColor],
      map[k := Defined(v), ColorCustomizations := Defined(Obj([(color, now)])), PeacockColor := Defined(accent)]);
    assert Applied(d, theme) == a;
    SerializeThree(k, v, Obj([(color, now)]), accent);
  }
}
