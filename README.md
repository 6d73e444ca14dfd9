# hatch-vsc: the VS Code environment updater, in Dafny

hatch-vsc points VS Code at the Hatch environments of a project. It reads the
`[tool.hatch.envs.*]` tables of `pyproject.toml`, derives a table from glob
patterns to environment names, locates the directory where Hatch keeps the
environments, and writes `.vscode/python.env.json` and `.vscode/settings.json`.
The repository carries two diverging copies of the updater, and each is a
module here:

- `BadgesUpdateVscodeEnv` (`badges/src/hatch_vsc/update_vscode_env.py`) is the full
  version. It covers:
  - the four-branch derivation of the pattern table: an explicit `vsc-mapping`,
    the first `cd ` script, test-framework inference, and the environment's
    own name;
  - `infer_test_directory`;
  - locating the environments on macOS (through a directory listing) and
    elsewhere (through the output of `hatch env find`);
  - the interpreter paths, and the read-modify-write of the settings.
- `SrcUpdateVscodeEnv` (`src/hatch_vsc/update_vscode_env.py`) is the older copy.
  It keeps only the environments that declare `vsc-mapping`, builds an
  `envFolders` list and an `extraPaths` list, and supports only a
  `sys.platform` of exactly `darwin`.

The shared modules restate the Python the code leans on:

- `PyStr`: `str.split()`, `split(sep)`, `strip`, ASCII `lower`, `find`, `in`,
  `" ".join` and slices with negative bounds.
- `PyDict`: an insertion-ordered dict. Assigning to an existing key keeps its
  place; a new key goes at the end.
- `Paths`: `/` joins and `.parent`.
- `Manifest`: the parsed `pyproject.toml`.
- `JsonDoc`: the JSON documents, and what a run writes or raises.
- `Outcomes`: the exceptions.

The surroundings are explicit inputs: the platform strings, `USER`, the
project name, the listing of the project's directory, the result of
`hatch env find`, and the settings file found on disk. Each `get_environment_mappings`
is a method with the source's loops, proved equal to a functional fold.
Each `update_vscode_config` is a method that returns what the run writes and
what it raises.

`BadgesExamples` and `SrcExamples` replay the cases of the test suite. They
also pin down the quirks the code has as written:

- `split("cd")` splits at a `cd` inside a word.
- `$(echo` without quotes slices `[0:-1]`.
- `$(echo` with a single quote slices from after the quote to `-1`.
- A bare `cd ` raises IndexError.
- A later environment takes over an earlier key, `src/**/*` included.

## Model

| member | source | states |
|---|---|---|
| BadgesUpdateVscodeEnv.FirstDirIndex | badges/src/hatch_vsc/update_vscode_env.py:30-32 | the position of the first directory of a listing, or -1 when it holds none |
| BadgesUpdateVscodeEnv.VirtualRoot | badges/src/hatch_vsc/update_vscode_env.py:22 | the user's virtual root `/Users/<user>/Library/Application Support/hatch/env/virtual`; its contract is carried by `GetMacosHatchPath` |
| BadgesUpdateVscodeEnv.SubdirOrSelf | badges/src/hatch_vsc/update_vscode_env.py:29-35 | a listed project directory resolves to its first sub-directory, or to itself when it holds none |
| BadgesUpdateVscodeEnv.GetMacosHatchPath | badges/src/hatch_vsc/update_vscode_env.py:13-35 | RuntimeError when `USER` is unset or empty; otherwise the error `iterdir` raises when the project directory cannot be listed, and else the first sub-directory of `<virtual root>/<project>`, or that directory itself when it has none or does not exist |
| BadgesUpdateVscodeEnv.GetHatchEnvPath | badges/src/hatch_vsc/update_vscode_env.py:38-57 | macOS layout when `platform.system().lower()` is `darwin`; elsewhere the parent of the stripped output of `hatch env find` exactly when it exits 0, else NotImplementedError naming `sys.platform` |
| BadgesUpdateVscodeEnv.DependencyText | badges/src/hatch_vsc/update_vscode_env.py:83-84 | the dependencies joined with single spaces and lower-cased; `SingleDependency` and `PyStr.Lower` state what that gives |
| BadgesUpdateVscodeEnv.TestScript | badges/src/hatch_vsc/update_vscode_env.py:88 | the `test` script, or the empty string when there is none; the same read is repeated at line 99 |
| BadgesUpdateVscodeEnv.TestsPartIndex | badges/src/hatch_vsc/update_vscode_env.py:91-94 | the first part that starts or ends with `tests`, or -1 exactly when no part does |
| BadgesUpdateVscodeEnv.InferTestDirectory | badges/src/hatch_vsc/update_vscode_env.py:74-107 | `infer_test_directory`, branch by branch; its cases are stated by `InferTestDirectoryCases` |
| BadgesUpdateVscodeEnv.InferTestDirectoryCases | badges/src/hatch_vsc/update_vscode_env.py:74-107 | pytest in the lower-cased joined dependencies wins: the first `tests` part of a `pytest...` script, else `tests`; then behave: the stripped text between the first `cd` and the next `cd` or `&&`, else `features`; neither: None |
| BadgesUpdateVscodeEnv.CdScriptIndex | badges/src/hatch_vsc/update_vscode_env.py:139-140 | the first script value that is a string starting with `cd `, or -1 when none is |
| BadgesUpdateVscodeEnv.CdDirectory | badges/src/hatch_vsc/update_vscode_env.py:142-148 | the directory a `cd ` command names; its four cases are stated by `CdDirectoryQuoted` (two quotes or more), `CdDirectoryOneQuote`, `CdDirectoryUnquoted` and `CdDirectoryWords` (no `$(echo`) |
| BadgesUpdateVscodeEnv.ScriptStep | badges/src/hatch_vsc/update_vscode_env.py:137-150 | step 2 of one pass: the first `cd ` script, if any, maps its directory to the environment, or raises IndexError |
| BadgesUpdateVscodeEnv.FallbackStep | badges/src/hatch_vsc/update_vscode_env.py:152-161 | steps 3 and 4: inference, then the environment's own name, each only while the name is not yet a value |
| BadgesUpdateVscodeEnv.Step | badges/src/hatch_vsc/update_vscode_env.py:128-161 | one pass of the loop: skip `default`, else the explicit mapping, else steps 2 to 4 |
| BadgesUpdateVscodeEnv.Run | badges/src/hatch_vsc/update_vscode_env.py:128-163 | the loop as a fold from a table over the environments still to come; the first raised error ends it |
| BadgesUpdateVscodeEnv.Mappings | badges/src/hatch_vsc/update_vscode_env.py:119-163 | the fold from the `src/**/*` seed over the declared environments, which `GetEnvironmentMappings` is proved equal to |
| BadgesUpdateVscodeEnv.GetEnvironmentMappings | badges/src/hatch_vsc/update_vscode_env.py:110-163 | the loop with its `continue`s and inner `break` returns or raises exactly what the fold `Run(Seed(), envs)` gives |
| BadgesUpdateVscodeEnv.CdDirectoryQuoted | badges/src/hatch_vsc/update_vscode_env.py:142-146 | with `$(echo`, the directory is the text between the first two single quotes |
| BadgesUpdateVscodeEnv.CdDirectoryUnquoted | badges/src/hatch_vsc/update_vscode_env.py:142-146 | with `$(echo` and no quote, both `find`s give -1 and the slice `[0:-1]` drops only the last character |
| BadgesUpdateVscodeEnv.CdDirectoryOneQuote | badges/src/hatch_vsc/update_vscode_env.py:142-146 | with `$(echo` and exactly one quote, the second `find` gives -1 and the slice `[q+1:-1]` keeps the text after the quote but its last character |
| BadgesUpdateVscodeEnv.CdDirectoryWords | badges/src/hatch_vsc/update_vscode_env.py:147-148 | without `$(echo`, the first word after `cd `, and IndexError when only whitespace follows |
| BadgesUpdateVscodeEnv.ExplicitMappingDecides | badges/src/hatch_vsc/update_vscode_env.py:133-135 | a `vsc-mapping` P maps `P/**/*` to the environment, changes no other key, and the outcome does not depend on scripts or dependencies |
| BadgesUpdateVscodeEnv.FirstCdScriptDecides | badges/src/hatch_vsc/update_vscode_env.py:139-150 | only the first `cd ` script matters: scripts after it never change the outcome |
| BadgesUpdateVscodeEnv.NonStringScriptIgnored | badges/src/hatch_vsc/update_vscode_env.py:139-140 | inserting a non-string script anywhere leaves the `cd ` branch's outcome unchanged |
| BadgesUpdateVscodeEnv.CdScriptIndexAfterInsert | badges/src/hatch_vsc/update_vscode_env.py:139-140 | where the first `cd ` script sits after a non-string script is inserted |
| BadgesUpdateVscodeEnv.FallbackOnlyWhenUnmapped | badges/src/hatch_vsc/update_vscode_env.py:153-161 | inference and the name fallback change nothing once the environment is a value of the table |
| BadgesUpdateVscodeEnv.StepMapsEnvironment | badges/src/hatch_vsc/update_vscode_env.py:128-161 | after its pass a non-default environment is a value; no key is lost, keys keep their order, at most one key is added and at most one value changes, to that environment |
| BadgesUpdateVscodeEnv.DefaultEnvironmentIgnored | badges/src/hatch_vsc/update_vscode_env.py:128-130 | removing an environment named `default` from the manifest does not change the outcome |
| BadgesUpdateVscodeEnv.StepWellFormed | badges/src/hatch_vsc/update_vscode_env.py:128-161 | one pass keeps the table well formed |
| BadgesUpdateVscodeEnv.RunWellFormed | badges/src/hatch_vsc/update_vscode_env.py:128-161 | the loop keeps the table well formed |
| BadgesUpdateVscodeEnv.MappingsWellFormed | badges/src/hatch_vsc/update_vscode_env.py:123-161 | a returned table starts with `src/**/*`, repeats no key and has only `<dir>/**/*` keys; only that first entry can hold `default`, and every other value is a declared environment other than `default` |
| BadgesUpdateVscodeEnv.EnvDirName | badges/src/hatch_vsc/update_vscode_env.py:182 | an environment's directory name: the project's own for `default`, `<project>_<env>` otherwise |
| BadgesUpdateVscodeEnv.EnvPath | badges/src/hatch_vsc/update_vscode_env.py:200 | an environment's directory under the environments' root; `EnvPathInjective` shows distinct environments never share one |
| BadgesUpdateVscodeEnv.InterpreterPath | badges/src/hatch_vsc/update_vscode_env.py:182 | `<environment directory>/bin/python`; for `default` it is also the path that line 198 assigns |
| BadgesUpdateVscodeEnv.EnvPathInjective | badges/src/hatch_vsc/update_vscode_env.py:200 | different environment names never give the same environment directory |
| BadgesUpdateVscodeEnv.EnvInterpreters | badges/src/hatch_vsc/update_vscode_env.py:180-185 | `python.envInterpreters` has exactly the table's patterns, in order, each with `base/<project or project_env>/bin/python` of its environment |
| BadgesUpdateVscodeEnv.DistinctValues | badges/src/hatch_vsc/update_vscode_env.py:201 | `set(mappings.values())`: every environment of the table, none twice, nothing else |
| BadgesUpdateVscodeEnv.ExtraPaths | badges/src/hatch_vsc/update_vscode_env.py:199-202 | one environment directory per listed environment, position by position |
| BadgesUpdateVscodeEnv.ExtraPathsOfDistinct | badges/src/hatch_vsc/update_vscode_env.py:199-202 | the analysis paths repeat nothing, include every environment of the table, and name nothing else |
| BadgesUpdateVscodeEnv.SettingsAfterUpdate | badges/src/hatch_vsc/update_vscode_env.py:198-202 | the two assignments set the default interpreter and the analysis paths, and every other key keeps its value |
| BadgesUpdateVscodeEnv.UpdateVscodeConfig | badges/src/hatch_vsc/update_vscode_env.py:166-205 | nothing is written when the environments cannot be located; otherwise the interpreter document is written, and if the settings load, the default interpreter and the de-duplicated analysis paths are set and every other key keeps its value; a load error is raised after the first write |
| SrcUpdateVscodeEnv.GetMacosHatchPath | src/hatch_vsc/update_vscode_env.py:11-20 | RuntimeError exactly when `USER` is unset or empty, else the user's virtual root |
| SrcUpdateVscodeEnv.MacosPathOfNewerCopy | src/hatch_vsc/update_vscode_env.py:17-20 | both copies fail alike without a user; the newer one joins the project name when the project directory is missing |
| SrcUpdateVscodeEnv.GetHatchEnvPath | src/hatch_vsc/update_vscode_env.py:23-31 | the macOS path only for a `sys.platform` of exactly `darwin`; NotImplementedError for every other platform |
| SrcUpdateVscodeEnv.Collect | src/hatch_vsc/update_vscode_env.py:57-64 | an environment name is a key exactly when some environment of that name declares `vsc-mapping` |
| SrcUpdateVscodeEnv.GetEnvironmentMappings | src/hatch_vsc/update_vscode_env.py:48-64 | the loop builds exactly `Collect` of the declared environments; a missing `tool`/`hatch`/`envs` section gives an empty table |
| SrcUpdateVscodeEnv.Declared | src/hatch_vsc/update_vscode_env.py:60-62 | the environments with a `vsc-mapping`, each with its value, front to back: the independent reference for `Collect` |
| SrcUpdateVscodeEnv.CollectIsDeclared | src/hatch_vsc/update_vscode_env.py:57-64 | with unique environment names, the table is the environments with a `vsc-mapping`, each with its value, in declaration order |
| SrcUpdateVscodeEnv.CollectLookup | src/hatch_vsc/update_vscode_env.py:60-62 | looking an environment up gives its `vsc-mapping`, and nothing when it has none |
| SrcUpdateVscodeEnv.DeclaredIndex | src/hatch_vsc/update_vscode_env.py:60-62 | every environment with a `vsc-mapping` has its entry in the declared table |
| SrcUpdateVscodeEnv.CollectUnique | src/hatch_vsc/update_vscode_env.py:57-64 | the table never repeats an environment |
| SrcUpdateVscodeEnv.EnvPath | src/hatch_vsc/update_vscode_env.py:85 | `<root>/<project>_<env>`, with the suffix even for `default` |
| SrcUpdateVscodeEnv.EnvFolder | src/hatch_vsc/update_vscode_env.py:84-87 | the folder object with exactly the keys `envPath` and `pattern`, in that order |
| SrcUpdateVscodeEnv.EnvFolderFields | src/hatch_vsc/update_vscode_env.py:84-87 | a folder entry's `envPath` is `base/project_env`, with the suffix even for `default`, and its `pattern` is `<mapping>/**` |
| SrcUpdateVscodeEnv.ExtraPaths | src/hatch_vsc/update_vscode_env.py:99-102 | one `base/project_env` per table entry, in table order |
| SrcUpdateVscodeEnv.ExtraPathsAreFolderPaths | src/hatch_vsc/update_vscode_env.py:83-102 | the analysis paths are the folders' `envPath`s, position by position |
| SrcUpdateVscodeEnv.UpdateVscodeConfig | src/hatch_vsc/update_vscode_env.py:67-105 | nothing is written on an unsupported platform; otherwise `envFolders` holds, for each entry in order, exactly the object `{"envPath": ..., "pattern": ...}` of `EnvFolder`, and if the settings load, only `python.analysis.extraPaths` changes |
| JsonDoc.LoadSettings | badges/src/hatch_vsc/update_vscode_env.py:192-195 | `{}` for an absent file, the object `json.load` returns, JsonDecodeError for a file that is not JSON, and TypeError for a document that is not an object; the same code is at src/hatch_vsc/update_vscode_env.py:94-97 |
| Manifest.HatchEnvs | badges/src/hatch_vsc/update_vscode_env.py:119-120 | the `tool.hatch.envs` table, or an empty one when any of the three sections is missing; the same lookup is at src/hatch_vsc/update_vscode_env.py:58 |
| Paths.Join | badges/src/hatch_vsc/update_vscode_env.py:182 | `str(Path(base) / child)` for a normal base |
| Paths.Parent | badges/src/hatch_vsc/update_vscode_env.py:53 | `str(Path(p).parent)`: the prefix before the last `/`, `/` or `.` |
| PyStr.Find | badges/src/hatch_vsc/update_vscode_env.py:144 | `find` gives the first occurrence, and -1 exactly when there is none |
| PyStr.FindFrom | badges/src/hatch_vsc/update_vscode_env.py:145 | `find(sub, start)` gives the first occurrence at or after `start`, or -1 |
| PyStr.Split | badges/src/hatch_vsc/update_vscode_env.py:103 | `split(sep)` yields a second piece exactly when `sep` occurs; the first two pieces are the text before and between the first two occurrences |
| PyStr.JoinSplit | badges/src/hatch_vsc/update_vscode_env.py:103 | joining the pieces of `split(sep)` with `sep` gives the string back |
| PyStr.SplitWsJoin | badges/src/hatch_vsc/update_vscode_env.py:91 | `split()` undoes a single-space join of whitespace-free words |
| PyStr.Strip | badges/src/hatch_vsc/update_vscode_env.py:103 | the result neither starts nor ends with whitespace, and only whitespace lies outside it |
| PyStr.StripIs | badges/src/hatch_vsc/update_vscode_env.py:53 | `strip` is the slice between leading and trailing whitespace |
| PyStr.Lower | badges/src/hatch_vsc/update_vscode_env.py:84 | ASCII letters are folded character by character; the length is kept |
| PyDict.Set | badges/src/hatch_vsc/update_vscode_env.py:134 | the key maps to the new value; other keys keep theirs; an existing key keeps its place and a new one is appended |
| PyDict.SetKeepsUniqueKeys | badges/src/hatch_vsc/update_vscode_env.py:149 | assigning to a key never repeats a key |
| Paths.ParentOfJoin | badges/src/hatch_vsc/update_vscode_env.py:53 | `.parent` undoes joining one more component |
| BadgesExamples.MappingsPytest | tests/test_config.py:21-37 | pytest with `pytest tests`: `src/**/*` to `default`, `tests/**/*` to `test` |
| BadgesExamples.MappingsExplicit | tests/test_config.py:40-54 | `vsc-mapping` `custom/tests` gives `custom/tests/**/*` |
| BadgesExamples.MappingsCd | tests/test_config.py:57-73 | for every whitespace-free directory word `d` without `$` other than `src` (the test uses `custom/path`), `cd d && pytest` gives `d/**/*` after the seed |
| BadgesExamples.MappingsCdEcho | tests/test_config.py:76-92 | for every directory `d` without a quote other than `src` (the test uses `custom/path`), `cd $(echo 'd') && pytest` gives `d/**/*` after the seed |
| BadgesExamples.MappingsFallback | tests/test_config.py:95-107 | an environment with nothing to go on maps `custom/**/*` to itself |
| BadgesExamples.MappingsNonStringScript | tests/test_config.py:131-148 | a non-string `test` script falls back to the name |
| BadgesExamples.InferPytest | tests/test_config.py:112-117 | `pytest tests` with pytest and pytest-cov gives `tests` |
| BadgesExamples.InferBehave | tests/test_config.py:119-124 | `cd features && behave` gives `features` |
| BadgesExamples.InferNothing | tests/test_config.py:126-128 | no test framework gives None |
| BadgesExamples.InferPytestNonStringScript | tests/test_config.py:151-157 | a non-string script under pytest gives `tests` |
| BadgesExamples.InferBehaveNested | tests/test_vscode.py:122-128 | `cd features/acceptance && behave` gives `features/acceptance` |
| BadgesExamples.InferBehaveSplitsInsideWord | badges/src/hatch_vsc/update_vscode_env.py:102-103 | `cd abcd && behave` gives `ab`: the second split stops at the `cd` inside `abcd` |
| BadgesExamples.MappingsDefaultOnly | badges/src/hatch_vsc/update_vscode_env.py:128-130 | a manifest with only `default` gives the seed table |
| BadgesExamples.MappingsSrcOverwritesSeed | badges/src/hatch_vsc/update_vscode_env.py:160-161 | an environment named `src` takes over `src/**/*` |
| BadgesExamples.MappingsLaterWins | badges/src/hatch_vsc/update_vscode_env.py:134 | two environments mapping `x`: the second wins, in the first one's place |
| BadgesExamples.MappingsBareCd | badges/src/hatch_vsc/update_vscode_env.py:148 | a script that is exactly `cd ` raises IndexError |
| BadgesExamples.EchoWithoutQuote | badges/src/hatch_vsc/update_vscode_env.py:144-146 | `cd $(echo x)` gives `cd $(echo x` |
| BadgesExamples.HatchPathFromProbe | tests/test_vscode.py:103-112 | Linux, `hatch env find` printing `/path/to/env`: `/path/to` |
| BadgesExamples.HatchPathOnDarwin | tests/test_vscode.py:87-92 | `Darwin` selects the macOS layout and its first sub-directory |
| BadgesExamples.HatchPathWithoutUser | tests/test_vscode.py:79-84 | no `USER`: RuntimeError "Could not determine username" |
| BadgesExamples.HatchPathOnWindows | tests/test_vscode.py:95-100 | Windows with a failing probe: NotImplementedError naming `sys.platform` |
| BadgesExamples.HatchPathUnlistable | badges/src/hatch_vsc/update_vscode_env.py:29-30 | on macOS, when the project path exists but cannot be listed, the error `iterdir` raises escapes from `get_hatch_env_path` |
| SrcExamples.CollectKeepsMapped | src/hatch_vsc/update_vscode_env.py:60-62 | of two environments only the one with `vsc-mapping` is kept |
| SrcExamples.NoToolSection | src/hatch_vsc/update_vscode_env.py:58 | no `tool` section: an empty table |
| SrcExamples.OnlyDarwinSupported | src/hatch_vsc/update_vscode_env.py:29-31 | the older copy tests `sys.platform` exactly: on Linux it raises NotImplementedError naming `linux` |

## Left out

- `read_pyproject_toml` (both copies) checks for a file and calls `tomli`, which is I/O and a foreign library. The parsed manifest is an input.
- `main` (both copies) only prints and exits.
- `plugin.py`, `hatch_hooks.py` and `__init__.py` are registration glue; they are not part of this model.
- `mkdir`, `open`, `json.load` and `json.dump` are not modelled as I/O. The documents written are returned values, and the settings file found is an input:
  - an absent file reads as `{}`;
  - a file that is not JSON raises;
  - a document that is not an object raises TypeError at the first assignment.
- `platform.system`, `sys.platform`, `os.getenv`, `Path.cwd`, `Path.exists`, `iterdir`, `is_dir` and `subprocess.run` are fields of the `Host` input.
  - `ProbeRaised` covers any exception from the probe.
  - The order of `iterdir` is the order of the listing given.
  - A project path that exists but cannot be listed is the `Unlistable` case, carrying the error `iterdir` raises. Errors from `exists` or `is_dir` are not modelled.
- `BadgesUpdateVscodeEnv.DistinctValues`: Python's `set` iterates in no promised order. The model lists first appearances. `UpdateVscodeConfig` promises only order-free facts about `extraPaths`: no duplicates, and exactly one path per environment of the table.
- `PyStr.Lower` folds ASCII letters only; Python's `lower` also folds other Unicode letters.
- Paths are strings joined with `/`. `Path` normalisation, such as collapsing `//` or a trailing `/`, is not modelled. `.parent` is the prefix before the last `/`.
- `vsc-mapping`, script and dependency values are modelled with the types the code assumes: a string mapping, string or non-string scripts, and string dependencies. A non-string mapping formatted by an f-string, or a non-string dependency that makes `join` raise, is not modelled.
- JSON numbers are integers, since the updater never looks inside the values it keeps.
- `json.load` raises on a malformed `settings.json`; nothing reads it as empty.
- A later environment can take over `src/**/*`: one named `src`, or one whose mapping, `cd ` directory or inferred directory is `src`.
