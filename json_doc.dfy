/** The JSON documents under `.vscode/` and what a run leaves there. */
module JsonDoc {
  import opened Outcomes
  import PyDict

  datatype Json =
    | JNull
    | JBool(b: bool)
    | JNumber(n: int)
    | JString(s: string)
    | JArray(items: seq<Json>)
    | JObject(members: PyDict.Dict<Json>)

  /** What `.vscode/settings.json` holds before the run. */
  datatype SettingsFile = Absent | Unparsable | Parsed(doc: Json)

  /** The dict the code goes on to assign into: `{}` when the file is absent,
      else what `json.load` returns. `json.load` raises on a file that is not
      JSON, and assigning a key into anything but an object raises `TypeError`. */
  function LoadSettings(f: SettingsFile): Result<PyDict.Dict<Json>> {
    match f
    case Absent => Ok([])
    case Unparsable => Err(JsonDecodeError)
    case Parsed(JObject(members)) => Ok(members)
    case Parsed(_) => Err(TypeError)
  }

  /** What one run of `update_vscode_config` leaves behind: the document
      written to `python.env.json`, the one written to `settings.json`, and
      the exception that stopped the run, if any. */
  datatype Effects = Effects(envFile: Option<Json>, settingsFile: Option<Json>, raised: Option<Error>)
}
