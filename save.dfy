/**
  * Writing the tracker back out: `save_settings` and `new_settings`.
  * The file system is a map from path to contents; the TOML and JSON
  * serialisers stay abstract, so a written file records the format chosen
  * and the tracker dumped into it.
  */
module Save {
  import opened Wrappers
  import opened Tracker

  /** The two dump calls: `toml.dump` and `json.dump` with an indent. */
  datatype Format = Toml | Json(indent: nat)

  /** What a file holds: emptied by `open(..., "w")`, or a dumped tracker. */
  datatype Contents = Truncated | Dumped(format: Format, doc: Dict)

  /** The files after a save, and whether it raised "Invalid file type". */
  datatype Outcome = Outcome(files: map<string, Contents>, raised: bool)

  /** `s.endswith(suffix)`: `s` is some text followed by `suffix`. */
  predicate EndsWith(s: string, suffix: string): (r: bool)
    ensures r <==> exists pre :: s == pre + suffix
  {
    var r := |suffix| <= |s| && s[|s| - |suffix|..] == suffix;
    assert r ==> s == s[..|s| - |suffix|] + suffix;
    assert forall pre | s == pre + suffix :: r by {
      forall pre | s == pre + suffix ensures r {
        assert s[|pre|..] == suffix;
      }
    }
    r
  }

  /** The suffix test of both save functions: `.toml`, then `.json` with indent 4, else nothing. */
  function FormatFor(path: string): (r: Option<Format>)
    ensures r == Some(Toml) <==> EndsWith(path, ".toml")
    ensures r == Some(Json(4)) <==> EndsWith(path, ".json")
    ensures r.None? <==> !EndsWith(path, ".toml") && !EndsWith(path, ".json")
  {
    if EndsWith(path, ".toml") then Some(Toml)
    else if EndsWith(path, ".json") then Some(Json(4))
    else None
  }

  /**
    * Open `target` for writing, then dump `fields` in the format that the
    * suffix of `formatPath` selects, or raise. The open comes first, so a
    * raise leaves `target` truncated.
    */
  function Write(files: map<string, Contents>, formatPath: string, target: string, fields: Dict): (r: Outcome)
    ensures r.raised <==> FormatFor(formatPath).None?
    ensures r.files.Keys == files.Keys + {target}
    ensures forall q | q in files && q != target :: r.files[q] == files[q]
    ensures r.files[target] == if r.raised then Truncated else Dumped(FormatFor(formatPath).value, fields)
  {
    var emptied := files[target := Truncated];
    match FormatFor(formatPath)
    case Some(f) => Outcome(emptied[target := Dumped(f, fields)], false)
    case None => Outcome(emptied, true)
  }

  /**
    * `save_settings`: a `.toml` file receives TOML, a `.json` file JSON
    * indented by 4, any other file is truncated and the save raises; no
    * other file changes.
    */
  function SaveSettings(files: map<string, Contents>, path: string, fields: Dict): (r: Outcome)
    ensures r.files.Keys == files.Keys + {path}
    ensures forall q | q in files && q != path :: r.files[q] == files[q]
    ensures EndsWith(path, ".toml") ==> !r.raised && r.files[path] == Dumped(Toml, fields)
    ensures EndsWith(path, ".json") ==> !r.raised && r.files[path] == Dumped(Json(4), fields)
    ensures !EndsWith(path, ".toml") && !EndsWith(path, ".json") ==> r.raised && r.files[path] == Truncated
  {
    Write(files, path, path, fields)
  }

  /**
    * `new_settings` as written: the new file receives what `save_settings`
    * would have written into the old file, and the call raises exactly
    * when that save would.
    */
  function NewSettings(files: map<string, Contents>, path: string, newPath: string, fields: Dict): (r: Outcome)
    ensures r.files.Keys == files.Keys + {newPath}
    ensures forall q | q in files && q != newPath :: r.files[q] == files[q]
    ensures r.raised == SaveSettings(files, path, fields).raised
    ensures r.files[newPath] == SaveSettings(files, path, fields).files[path]
  {
    Write(files, path, newPath, fields)
  }

  /** `new_settings` as evidently intended: exactly `save_settings` at the new path. */
  function NewSettingsFixed(files: map<string, Contents>, newPath: string, fields: Dict): (r: Outcome)
    ensures r == SaveSettings(files, newPath, fields)
  {
    Write(files, newPath, newPath, fields)
  }

  /**
    * `new_settings` as written, from a `.toml` file to a `.json` name: the
    * new file holds TOML, while the corrected version writes JSON there.
    */
  lemma NewSettingsKeepsOldFormat(files: map<string, Contents>, path: string, newPath: string, fields: Dict)
    requires EndsWith(path, ".toml") && EndsWith(newPath, ".json")
    ensures NewSettings(files, path, newPath, fields).files[newPath] == Dumped(Toml, fields)
    ensures NewSettingsFixed(files, newPath, fields).files[newPath] == Dumped(Json(4), fields)
  {
  }

  /**
    * `new_settings` as written raises on a file with an unsupported suffix
    * even when the new name ends in `.toml`, after truncating that new file.
    */
  lemma NewSettingsRaisesOnOldSuffix(files: map<string, Contents>, path: string, newPath: string, fields: Dict)
    requires !EndsWith(path, ".toml") && !EndsWith(path, ".json") && EndsWith(newPath, ".toml")
    ensures NewSettings(files, path, newPath, fields) == Outcome(files[newPath := Truncated], true)
    ensures !NewSettingsFixed(files, newPath, fields).raised
  {
  }
}
