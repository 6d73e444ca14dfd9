/** The part of a parsed `pyproject.toml` that the updater reads:
    `[tool.hatch.envs.<name>]` tables, in the order the file declares them. */
module Manifest {
  import opened Outcomes
  import PyDict

  /** A value of a `scripts` table: a command string, or anything else TOML allows. */
  datatype ScriptValue = Str(text: string) | NonString

  /** One environment table. An absent `scripts` or `dependencies` key is the
      empty table or list, as the code's `.get(..., {})` and `.get(..., [])` read it. */
  datatype EnvConfig = EnvConfig(
    vscMapping: Option<string>,
    scripts: PyDict.Dict<ScriptValue>,
    dependencies: seq<string>)

  type Envs = PyDict.Dict<EnvConfig>

  datatype Hatch = Hatch(envs: Option<Envs>)
  datatype Tool = Tool(hatch: Option<Hatch>)
  datatype Pyproject = Pyproject(tool: Option<Tool>)

  /** `config.get("tool", {}).get("hatch", {}).get("envs", {})` */
  function HatchEnvs(config: Pyproject): Envs {
    match config.tool
    case None => []
    case Some(tool) =>
      match tool.hatch
      case None => []
      case Some(hatch) =>
        match hatch.envs
        case None => []
        case Some(envs) => envs
  }
}
