# applyTheme — a Dafny model of the theme applier

`applyTheme.js` is a small Node.js script that applies a colour theme to a
VS Code workspace. It lists the `themes` directory and offers every entry
ending in `.json`, without that suffix. It reads the file of the theme the
user picks. It reads `.vscode/settings.json`, where a missing file counts as
`{}`. It merges the theme's `workbench.colorCustomizations` over the
existing ones, sets `peacock.color` to the theme's value, and writes the
settings back as JSON.

The model has five modules:

- `Common` holds `Option`, `Result` and the script's failure kinds. Each
  failure kind is one of the places where the script stops with a non-zero
  exit status.
- `JsonValues` holds parsed JSON values (`Json`) and JavaScript objects at
  run time (`Dict`).
  - A `Dict` keeps property names in enumeration order.
  - `PutAll` copies members one by one, as JSON.parse and object spread do:
    a name seen before keeps its place and takes the later value.
  - `Spread` is what `{...p}` copies for each kind of value.
- `ThemeLister` models lines 10-25 and 37 as pure functions: filtering the
  directory entries, removing the suffix, rebuilding the path.
- `SettingsMerge` models lines 51-69.
  - The class `Settings` is the settings object. It is created empty or
    from the parsed file, and `ApplyTheme` changes it in place with two
    property assignments.
  - The functions `Applied` and `Serialize` specify the object after those
    assignments and the document JSON.stringify writes from it.
- `Script` models the whole run.
  - `Env` holds everything the script observes from outside: what listing
    the directory gives, the user's answer, what reading each file gives,
    and whether the final write fails.
  - `Pipeline` is the run as a function of `Env`. The method `Run`
    performs the run with the `Settings` object changed in place and is
    proved equal to `Pipeline`.
  - `Scenarios` holds two worked examples over symbolic values.

The script is an ES module, so its code runs in strict mode. On the
property reads and writes of lines 60-66 this means:

- reading a property of a `null` theme or `null` settings throws a
  TypeError;
- assigning a property of a primitive settings document throws a TypeError;
- an array settings document accepts both assignments, but JSON.stringify
  writes only its elements, so it is written back with the same elements.

A parse error at line 47 or 56 and a TypeError at lines 60-66 are exceptions
that nothing catches. They end the process with nothing written, and the
model treats each of them as a failure with its own error kind.

## Model

| member | source | states |
|---|---|---|
| `ThemeLister.ListThemes` | applyTheme.js:10-25 | Definition: an unreadable directory fails first, then a directory without theme files, and otherwise the stripped theme files are offered. |
| `ThemeLister.ThemePath` | applyTheme.js:37 | Definition: the chosen name followed by ".json". |
| `JsonValues.Lookup` | applyTheme.js:47 | Definition of reading a parsed object's member: the last member of that name, as JSON.parse keeps it. |
| `JsonValues.Put` | applyTheme.js:60-66 | Definition of `o[k] = v`: an existing name keeps its place and takes the value, a new name is appended; validity is kept. |
| `JsonValues.PutAll` | applyTheme.js:60-63 | Definition of copying members one by one into an object; validity is kept. |
| `JsonValues.ObjectOf` | applyTheme.js:56 | Definition of the object JSON.parse builds from a member list: the members copied into `{}`. |
| `JsonValues.MembersOf` | applyTheme.js:69 | Definition of an object's own properties in enumeration order. |
| `JsonValues.Spread` | applyTheme.js:61-62 | Definition of what `{...p}` copies: an object's members, a string's characters and an array's elements under decimal index names, and nothing for undefined, null, booleans and numbers. |
| `SettingsMerge.Get` | applyTheme.js:61 | Definition of reading a settings property: `undefined` when absent. |
| `SettingsMerge.Field` | applyTheme.js:62-66 | Definition of reading a theme property: an object's last member of that name, and `undefined` for every other kind of value. |
| `SettingsMerge.SpreadMerge` | applyTheme.js:60-63 | Definition of `{...a, ...b}`: `b`'s entries copied over a fresh object of `a`'s. |
| `SettingsMerge.MergedColors` | applyTheme.js:60-63 | Definition of the object built at lines 60-63 from the settings' and the theme's colour customizations. |
| `SettingsMerge.Applied` | applyTheme.js:60-66 | Definition of the settings object after the two assignments, colour customizations first; validity is kept. |
| `SettingsMerge.DefinedKeys` | applyTheme.js:69 | Definition of the names JSON.stringify writes: those whose value is not `undefined`, in order. |
| `SettingsMerge.DefinedVals` | applyTheme.js:69 | Definition of the values JSON.stringify writes: the defined ones. |
| `SettingsMerge.DefinedPart` | applyTheme.js:69 | Definition of the object without its `undefined` properties; validity is kept. |
| `SettingsMerge.Serialize` | applyTheme.js:69 | Definition of the document `JSON.stringify(settingsJson)` writes: the defined properties in enumeration order. |
| `SettingsMerge.Lift` | applyTheme.js:56 | Definition of a parsed object seen through property reads: every property defined. |
| `SettingsMerge.Load` | applyTheme.js:56 | Definition of `JSON.parse(settingsData)` for an object document; the result is valid. |
| `Script.ThemeFile` | applyTheme.js:37-40 | Definition of reading the chosen theme's file; a file the directory does not hold is missing. |
| `Script.MergeObject` | applyTheme.js:59-69 | Definition of the merge on a settings object: a null theme throws a TypeError before any assignment, otherwise the written document is `Serialize(Applied(...))`. |
| `Script.MergeInto` | applyTheme.js:56-66 | Definition of the merge on a parsed settings document: an object is merged; an array is written back when the theme is not null; null and primitives throw a TypeError, as strict mode does. |
| `Script.NewSettings` | applyTheme.js:50-69 | Definition of lines 50-69: ENOENT gives `{}`, any other read error and a parse error are fatal, and a parsed document is merged. |
| `Script.Pipeline` | applyTheme.js:10-83 | Definition of the run: listing, then the prompt, then the theme file (read error, then parse error), then the settings, then the write, each failure stopping it. |
| `ThemeLister.IsThemeFile` | applyTheme.js:17 | Definition of `file.endsWith('.json')`: the entry is at least as long as ".json" and ends with it. |
| `SettingsMerge.ColorsOf` | applyTheme.js:61 | Definition of the operand `...settingsJson["workbench.colorCustomizations"]`: what spreading the settings' colour customizations copies. |
| `SettingsMerge.ThemeColors` | applyTheme.js:62 | Definition of the operand `...themeJson["workbench.colorCustomizations"]`: what spreading the theme's colour customizations copies. |
| `JsonValues.Decimal` | applyTheme.js:61-62 | Definition of the index names spreading a string or an array creates: the decimal digits of the index. |
| `JsonValues.EmptyDict` | applyTheme.js:51 | Definition of `{}`: no names and no values, and valid. |
| `Script.AnswerIsOffered` | applyTheme.js:28-36 | Definition of the prompt's promise: a picked name is one of the names offered from a listed directory. |
| `JsonValues.DecimalInjective` | applyTheme.js:61-62 | Different indices have different decimal names, so the properties a string or array spread creates never collide. |
| `JsonValues.StringSpreadObject` | applyTheme.js:61-62 | `{...s}` for a string is the object with the names `"0"`, `"1"`, … in index order, each holding the one-character string at that index. |
| `JsonValues.ArraySpreadObject` | applyTheme.js:61-62 | `{...xs}` for an array is the object with the names `"0"`, `"1"`, … in index order, each holding the element at that index. |
| `JsonValues.ObjectOfKeys` | applyTheme.js:56 | Parsing members with distinct names keeps exactly those names, in the members' order. |
| `JsonValues.ObjectOfDistinctAt` | applyTheme.js:56 | Parsing members with distinct names gives each name the value of its member. |
| `ThemeLister.ThemeFiles` | applyTheme.js:17 | An entry is kept exactly when it is listed and ends in ".json"; no more files than entries. |
| `ThemeLister.ThemeFilesAppend` | applyTheme.js:17 | Filtering distributes over concatenation, so the kept entries stay in listing order. |
| `ThemeLister.ThemeName` | applyTheme.js:25 | The display name followed by ".json" is the file name. |
| `ThemeLister.ThemeNames` | applyTheme.js:25 | One name per theme file, at the same position, each being that file without its ".json" suffix. |
| `ThemeLister.ListThemesOutcome` | applyTheme.js:10-25 | An unreadable directory fails with a directory error. A listed directory fails with "no themes" exactly when no entry ends in ".json". Otherwise the offered names are the stripped theme files and are never empty. |
| `ThemeLister.OfferedIffListed` | applyTheme.js:25-37 | A name is offered exactly when the name plus ".json" is an entry of the directory, so the path rebuilt at line 37 names a listed file. |
| `ThemeLister.OfferedNamesDistinct` | applyTheme.js:17-25 | Distinct directory entries give distinct offered names. |
| `JsonValues.LookupIsLast` | applyTheme.js:47 | A parsed object's member is found exactly when some member has that name, and the value found is that of the last such member. |
| `JsonValues.PutAllAt` | applyTheme.js:60-63 | After copying members into an object, a name is present iff it was before or some member carries it; the last such member gives its value; other names keep theirs. |
| `JsonValues.PutAllKeepsOrder` | applyTheme.js:60-63 | Copying members leaves the names present before at the front, in their order. |
| `JsonValues.PutAllNoNewKeys` | applyTheme.js:60-63 | Copying members whose names are all present adds no name. |
| `JsonValues.PutAllTwice` | applyTheme.js:60-63 | Copying the same members twice has the effect of copying them once. |
| `JsonValues.ObjectOfMembers` | applyTheme.js:69 | Parsing the members JSON.stringify lists for an object gives back that same object, order included. |
| `JsonValues.LookupMembers` | applyTheme.js:69 | The member list written for an object holds each property of the object, with its value, and nothing else. |
| `SettingsMerge.Settings.Empty` | applyTheme.js:51 | The settings object starts as the empty object. |
| `SettingsMerge.Settings.Parsed` | applyTheme.js:56 | The settings object becomes the object parsed from the settings file. |
| `SettingsMerge.Settings.Assign` | applyTheme.js:60 | An assignment keeps an existing property's place or appends a new one, and changes nothing else. |
| `SettingsMerge.Settings.ApplyTheme` | applyTheme.js:59-66 | Succeeds exactly when the theme is not null. On success the new object is `Applied` of the old one; on failure the object is unchanged. |
| `SettingsMerge.SpreadMergeAt` | applyTheme.js:60-63 | `{...a, ...b}` holds every name of either side; the value is `b`'s where `b` has the name, and otherwise `a`'s. What each side contributes is given by the definition of `Spread`. |
| `SettingsMerge.SpreadMergeOrder` | applyTheme.js:60-63 | `{...a, ...b}` lists `a`'s names first, in their order. |
| `SettingsMerge.GetPut` | applyTheme.js:60-66 | Reading a property after an assignment gives the assigned value for that name and the old value for every other. |
| `SettingsMerge.AppliedAt` | applyTheme.js:60-66 | After the merge the colour customizations hold the merged object, the accent colour holds the theme's value, and every other property is present and valued as before. |
| `SettingsMerge.AppliedKeys` | applyTheme.js:60-66 | Existing properties keep their order; the colour customizations and then `peacock.color` are appended when they were absent. |
| `SettingsMerge.ColorsMerged` | applyTheme.js:60-63 | Every colour the theme names takes the theme's value, and every other colour keeps the one it had. |
| `SettingsMerge.ColorOrder` | applyTheme.js:60-63 | The colours already present keep their order at the front; new ones come after them. |
| `SettingsMerge.PeacockColorReplaced` | applyTheme.js:66-69 | `peacock.color` becomes the theme's value whatever it was; when the theme has none, the written document has no `peacock.color`. |
| `SettingsMerge.SpreadMergeAgain` | applyTheme.js:60-63 | Merging the theme's colours into already merged colours changes nothing. |
| `SettingsMerge.AppliedIdempotent` | applyTheme.js:59-66 | Applying the same theme twice to the settings object is the same as applying it once. |
| `SettingsMerge.DefinedKeysMembers` | applyTheme.js:69 | JSON.stringify writes exactly the properties whose value is not `undefined`, none twice. |
| `SettingsMerge.DefinedKeysAppend` | applyTheme.js:69 | Keeping the defined names distributes over concatenation, so the written names keep the object's order. |
| `SettingsMerge.DefinedKeysAll` | applyTheme.js:69 | When every property is defined, every name is written. |
| `SettingsMerge.SerializedNames` | applyTheme.js:69 | The names of the written document are the object's defined names, in the object's enumeration order. |
| `SettingsMerge.WrittenOrder` | applyTheme.js:60-69 | The written settings list the existing properties first, in their order (those still defined), then the colour customizations if new, then `peacock.color` if new and defined. |
| `SettingsMerge.WrittenOrderLoaded` | applyTheme.js:56-69 | For settings read from a file and a theme with an accent colour, the written names are exactly the file's names in the file's order, followed by whichever managed names are new. |
| `SettingsMerge.UndefinedDropped` | applyTheme.js:66-69 | A property newly assigned `undefined` is absent from the written document. |
| `SettingsMerge.LoadSerialized` | applyTheme.js:56-69 | Writing the settings object and parsing the result gives the object without its `undefined` properties. |
| `SettingsMerge.RerunWritesSame` | applyTheme.js:50-69 | Merging the same theme into the document a merge wrote produces that document again. |
| `Script.MergeSettings` | applyTheme.js:50-69 | The imperative merge through a `Settings` object writes exactly `NewSettings`. That covers a fatal non-ENOENT read error, a fatal parse error, `{}` for a missing file, a TypeError for null or primitive settings and for a null theme, and an array written back unchanged. |
| `Script.Run` | applyTheme.js:10-83 | The imperative run ends exactly as `Pipeline` says: each stage's failure stops it before anything later happens, and a write happens only at the end. |
| `Script.ListingStops` | applyTheme.js:10-22 | An unreadable themes directory, or a directory without ".json" entries, ends the run with that failure, whatever else happens. |
| `Script.WrittenThemeWasListed` | applyTheme.js:28-40 | When the user picks an offered name and the run writes, the theme written is the one picked and its file is an entry of the themes directory. |
| `Script.MissingSettingsIsEmpty` | applyTheme.js:51-57 | A missing settings file gives the same run as a settings file holding `{}`. |
| `Script.MergeObjectAgain` | applyTheme.js:59-69 | Lifts `SettingsMerge.RerunWritesSame` from the settings object to the parsed document: `MergeInto` on an object document a merge wrote, with the same theme, gives that document again. |
| `Script.PipelineRerun` | applyTheme.js:50-69 | Running the script again, same answer and same files, on the settings it wrote, writes the same settings. |
| `Scenarios.FreshWorkspace` | applyTheme.js:51-69 | With no settings file, a theme holding colour customizations with distinct names and then an accent colour is written out as the theme's member list, in that order. |
| `Scenarios.ExistingWorkspace` | applyTheme.js:55-69 | Settings holding an unrelated property and one colour, merged with a theme setting that colour: the property stays first, the colour takes the theme's value, and `peacock.color` is appended. |

## Left out

- File system, prompt and process: reading the directory and the files, the
  interactive prompt, writing the file and exiting are not modelled as
  effects. What each of them returns is an input in `Env`, and every failure
  is an `Outcome`. The callbacks and their asynchrony are not modelled,
  because each stage starts only after the previous one has finished.
- Messages: the console messages and the success message are left out; only
  which failure stopped the run is kept.
- Paths: `path.join` with the working directory is left out. Theme files are
  identified by their name inside the themes directory.
- Text: the JSON text is not modelled. Parsing gives either a `Json` value
  or a parse failure. Writing with four-space indentation is the document
  `Serialize` returns, not its text.
- Numbers are `real`; IEEE double rounding is not modelled, and neither is
  any other floating-point behaviour.
- Property order: JavaScript lists names that look like array indices
  (such as `"0"`) before all other names, in ascending order. The model
  uses insertion order for every name. The two names the script assigns
  are not index-like.
- Nested objects: JSON.parse collapses repeated member names at every depth
  (first position, last value). The model collapses them only where the
  script builds or changes an object: the settings object at its top level,
  and the merged colour customizations. A `Json` value nested deeper keeps
  its member list as given. So when a nested object in the settings or the
  theme repeats a name, the model writes the repetition, but the script
  writes the collapsed object. The same holds for the elements of an array
  settings document.
- Strings: spreading a string over the colour customizations copies one
  property per Dafny character, not per UTF-16 code unit. A Dafny `string`
  holds Unicode scalar values only, so a document whose names or strings
  contain a lone surrogate escape (such as `"\ud800"`), which JSON.parse
  accepts, is outside the model.
- Separators: `path.basename(file, '.json')` is modelled as removing the
  suffix, which is what it does for a name without a path separator. Directory
  entries never hold separators. For an entry named exactly ".json" the model
  gives the empty name, as Node's `basename` does when the suffix is the
  whole name.
- Selection: the prompt is an input, `Cancelled` or `Picked(name)`. The
  lemmas that rely on the answer being one of the offered names take that
  as a precondition (`AnswerIsOffered`).
