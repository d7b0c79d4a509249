/** The theme lister (applyTheme.js lines 10-25): the entries of the themes
    directory that end in ".json", in listing order, and the display names
    obtained by removing that suffix. */
module ThemeLister {
  import opened Common

  const Extension: string := ".json"

  /** The outcome of listing the themes directory. */
  datatype DirRead = DirUnreadable | Listed(entries: seq<string>)

  /** `entry.endsWith(".json")`. An entry named exactly ".json" qualifies. */
  predicate IsThemeFile(entry: string) {
    |Extension| <= |entry| && entry[|entry| - |Extension|..] == Extension
  }

  /** `files.filter(file => file.endsWith('.json'))`. */
  function ThemeFiles(entries: seq<string>): (files: seq<string>)
    ensures forall f :: f in files <==> f in entries && IsThemeFile(f)
    ensures |files| <= |entries|
  {
    if entries == [] then []
    else (if IsThemeFile(entries[0]) then [entries[0]] else []) + ThemeFiles(entries[1..])
  }

  /** `path.basename(file, '.json')` for a directory entry, which holds no
      separator: the entry without its suffix. */
  function ThemeName(file: string): (name: string)
    requires IsThemeFile(file)
    ensures name + Extension == file
  {
    assert file == file[..|file| - |Extension|] + file[|file| - |Extension|..];
    file[..|file| - |Extension|]
  }

  /** `themeFiles.map(file => path.basename(file, '.json'))`. */
  function ThemeNames(files: seq<string>): (names: seq<string>)
    requires forall f :: f in files ==> IsThemeFile(f)
    ensures |names| == |files|
    ensures forall i :: 0 <= i < |files| ==> names[i] + Extension == files[i]
  {
    if files == [] then [] else [ThemeName(files[0])] + ThemeNames(files[1..])
  }

  /** The file name rebuilt from a chosen theme name (line 37). */
  function ThemePath(name: string): string {
    name + Extension
  }

  /** The names offered to the user, or the failure that stops the script first. */
  function ListThemes(dir: DirRead): Result<seq<string>> {
    match dir
    case DirUnreadable => Failure(DirectoryReadError)
    case Listed(entries) =>
      var files := ThemeFiles(entries);
      if |files| == 0 then Failure(NoThemesFoundError) else Success(ThemeNames(files))
  }

  /** Lines 10-25: an unreadable directory and a directory without theme files
      are the two failures, and otherwise the names offered are the theme files
      without their suffix, never none. */
  lemma ListThemesOutcome(dir: DirRead)
    ensures dir.DirUnreadable? ==> ListThemes(dir) == Failure(DirectoryReadError)
    ensures dir.Listed? ==>
      (ListThemes(dir) == Failure(NoThemesFoundError) <==> forall e :: e in dir.entries ==> !IsThemeFile(e))
    ensures ListThemes(dir).Success? ==>
      dir.Listed? && ListThemes(dir).value == ThemeNames(ThemeFiles(dir.entries)) && ListThemes(dir).value != []
  {
    if dir.Listed? && |ThemeFiles(dir.entries)| != 0 {
      var files := ThemeFiles(dir.entries);
      assert files[0] in files;
    }
  }

  /** Filtering keeps the listing order: it distributes over concatenation. */
  lemma {:induction false} ThemeFilesAppend(a: seq<string>, b: seq<string>)
    ensures ThemeFiles(a + b) == ThemeFiles(a) + ThemeFiles(b)
  {
    if a == [] {
      assert a + b == b;
    } else {
      assert (a + b)[0] == a[0] && (a + b)[1..] == a[1..] + b;
      ThemeFilesAppend(a[1..], b);
    }
  }

  /** A name is offered exactly when that name followed by ".json" is an entry
      of the directory: the path rebuilt at line 37 is always a listed file,
      and every listed theme file is offered. */
  lemma OfferedIffListed(entries: seq<string>, name: string)
    ensures name in ThemeNames(ThemeFiles(entries)) <==> ThemePath(name) in entries
  {
    var files := ThemeFiles(entries);
    var names := ThemeNames(files);
    if name in names {
      var i :| 0 <= i < |names| && names[i] == name;
      assert files[i] in files;
    }
    if ThemePath(name) in entries {
      var p := ThemePath(name);
      assert p[|p| - |Extension|..] == Extension;
      var i :| 0 <= i < |files| && files[i] == p;
      assert names[i] + Extension == name + Extension;
      assert names[i] == (names[i] + Extension)[..|names[i]|];
      assert name == (name + Extension)[..|name|];
    }
  }

  lemma {:induction false} ThemeFilesDistinct(entries: seq<string>)
    requires Distinct(entries)
    ensures Distinct(ThemeFiles(entries))
  {
    if entries != [] {
      var rest := entries[1..];
      assert Distinct(rest) by {
        forall i, j | 0 <= i < j < |rest| ensures rest[i] != rest[j] {
          assert rest[i] == entries[i + 1] && rest[j] == entries[j + 1];
        }
      }
      ThemeFilesDistinct(rest);
      assert entries[0] !in rest by {
        forall i | 0 <= i < |rest| ensures rest[i] != entries[0] {
          assert rest[i] == entries[i + 1];
        }
      }
    }
  }

  /** A directory never lists the same entry twice, so no theme name is offered twice. */
  lemma OfferedNamesDistinct(entries: seq<string>)
    requires Distinct(entries)
    ensures Distinct(ThemeNames(ThemeFiles(entries)))
  {
    var files := ThemeFiles(entries);
    var names := ThemeNames(files);
    ThemeFilesDistinct(entries);
    forall i, j | 0 <= i < j < |names| ensures names[i] != names[j] {
      assert names[i] + Extension == files[i];
      assert names[j] + Extension == files[j];
    }
  }
}
