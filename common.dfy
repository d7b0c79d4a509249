/** Small shared definitions: optional values, results carrying the script's
    failure kinds, and distinctness of a sequence. */
module Common {

  datatype Option<T> = None | Some(value: T)

  /** Every way the script can stop with a failure. Each one is terminal: the
      process reports it and exits with a non-zero status. */
  datatype Error =
    | DirectoryReadError    // the themes directory cannot be listed
    | NoThemesFoundError    // no entry of the themes directory ends in ".json"
    | SelectionError        // the interactive prompt was cancelled or failed
    | ThemeReadError        // the chosen theme file cannot be read
    | ThemeParseError       // the chosen theme file is not valid JSON
    | SettingsReadError     // the settings file exists but cannot be read
    | SettingsParseError    // the settings file is not valid JSON
    | MergeTypeError        // a property access or assignment on null or a primitive
    | SettingsWriteError    // the merged settings cannot be written back

  datatype Result<T> = Success(value: T) | Failure(error: Error)

  ghost predicate Distinct<T>(s: seq<T>) {
    forall i, j :: 0 <= i < j < |s| ==> s[i] != s[j]
  }
}
