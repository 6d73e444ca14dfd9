/** The older updater, src/hatch_vsc/update_vscode_env.py: keep the
    environments that declare a `vsc-mapping`, and write one environment
    folder and one analysis path per kept environment. */
module SrcUpdateVscodeEnv {
  import opened Outcomes
  import PyDict
  import Paths
  import opened JsonDoc
  import opened Manifest
  import Badges = BadgesUpdateVscodeEnv

  /** What this copy reads from its surroundings. */
  datatype Host = Host(
    sysPlatform: string,    // sys.platform
    user: Option<string>,   // os.getenv("USER")
    cwdName: string)        // Path.cwd().name

  // ---------------------------------------------------------------------------
  // Locating the environments

  /** `get_macos_hatch_path()`: the user's virtual-environment root itself. */
  function GetMacosHatchPath(user: Option<string>): (r: Result<string>)
    ensures r.Err? <==> user == None || user == Some("")
    ensures r.Err? ==> r.error == RuntimeError("Could not determine username")
    ensures r.Ok? ==> r.value == Badges.VirtualRoot(user.value)
  {
    if user == None || user == Some("") then Err(RuntimeError("Could not determine username"))
    else Ok(Badges.VirtualRoot(user.value))
  }

  /** The newer copy descends from this root into the project's directory:
      when that directory does not exist, it is exactly the root joined with
      the project name, and both copies fail alike without a user. */
  lemma MacosPathOfNewerCopy(user: Option<string>, projectName: string)
    ensures GetMacosHatchPath(user).Err? <==> Badges.GetMacosHatchPath(user, projectName, Badges.Missing).Err?
    ensures GetMacosHatchPath(user).Ok? ==>
      Badges.GetMacosHatchPath(user, projectName, Badges.Missing) ==
        Ok(Paths.Join(GetMacosHatchPath(user).value, projectName))
  {
  }

  /** `get_hatch_env_path()`: only a `sys.platform` of exactly "darwin" is supported. */
  function GetHatchEnvPath(host: Host): (r: Result<string>)
    ensures host.sysPlatform == "darwin" ==> r == GetMacosHatchPath(host.user)
    ensures host.sysPlatform != "darwin" ==>
      r == Err(NotImplementedError("Platform " + host.sysPlatform + " not supported yet"))
  {
    if host.sysPlatform == "darwin" then GetMacosHatchPath(host.user)
    else Err(NotImplementedError("Platform " + host.sysPlatform + " not supported yet"))
  }

  // ---------------------------------------------------------------------------
  // get_environment_mappings

  /** Environment names to the directories they declare. */
  type Table = PyDict.Dict<string>

  /** The table after the loop has seen the environments `envs`, in order. */
  function Collect(envs: Envs): (r: Table)
    ensures forall k :: k in PyDict.Keys(r) <==>
      exists i :: 0 <= i < |envs| && envs[i].0 == k && envs[i].1.vscMapping.Some?
    decreases |envs|
  {
    if envs == [] then []
    else
      var prefix := envs[..|envs| - 1];
      var (name, cfg) := envs[|envs| - 1];
      var t := Collect(prefix);
      assert forall i :: 0 <= i < |prefix| ==> prefix[i] == envs[i];
      if cfg.vscMapping.Some? then PyDict.Set(t, name, cfg.vscMapping.value) else t
  }

  /** `get_environment_mappings(config)`; a missing `tool`, `hatch` or `envs`
      section reads as no environments at all. */
  method GetEnvironmentMappings(config: Pyproject) returns (mappings: Table)
    ensures mappings == Collect(HatchEnvs(config))
    ensures HatchEnvs(config) == [] ==> mappings == []
  {
    var envs := HatchEnvs(config);
    mappings := [];
    for i := 0 to |envs|
      invariant mappings == Collect(envs[..i])
    {
      assert envs[..i + 1][..i] == envs[..i];
      var (name, cfg) := envs[i];
      if cfg.vscMapping.Some? {
        mappings := PyDict.Set(mappings, name, cfg.vscMapping.value);
      }
    }
    assert envs[..|envs|] == envs;
  }

  /** The declared entries, front to back, independently of the loop: every
      environment with a `vsc-mapping`, paired with it, and nothing else. */
  function Declared(envs: Envs): (r: Table)
    ensures |r| <= |envs|
    decreases |envs|
  {
    if envs == [] then []
    else
      var rest := Declared(envs[1..]);
      match envs[0].1.vscMapping
      case Some(dir) => [(envs[0].0, dir)] + rest
      case None => rest
  }

  lemma {:induction false} DeclaredAppend(envs: Envs, e: (string, EnvConfig))
    ensures Declared(envs + [e]) ==
      Declared(envs) + (if e.1.vscMapping.Some? then [(e.0, e.1.vscMapping.value)] else [])
    decreases |envs|
  {
    if envs == [] {
      assert [e][1..] == [];
    } else {
      assert (envs + [e])[1..] == envs[1..] + [e];
      DeclaredAppend(envs[1..], e);
    }
  }

  /** In a manifest, where environment names never repeat, the table is
      exactly the environments that declare a `vsc-mapping`, each with its
      value, in declaration order. */
  lemma {:induction false} CollectIsDeclared(envs: Envs)
    requires PyDict.UniqueKeys(envs)
    ensures Collect(envs) == Declared(envs)
    decreases |envs|
  {
    if envs != [] {
      var prefix := envs[..|envs| - 1];
      var e := envs[|envs| - 1];
      assert envs == prefix + [e];
      CollectIsDeclared(prefix);
      DeclaredAppend(prefix, e);
      if e.1.vscMapping.Some? {
        assert e.0 !in PyDict.Keys(Collect(prefix));
      }
    }
  }

  /** Looking an environment up in the table gives its `vsc-mapping`, and
      nothing for an environment without one. */
  lemma CollectLookup(envs: Envs, i: int)
    requires PyDict.UniqueKeys(envs)
    requires 0 <= i < |envs|
    ensures PyDict.Get(Collect(envs), envs[i].0) == envs[i].1.vscMapping
  {
    var t := Collect(envs);
    if envs[i].1.vscMapping.Some? {
      CollectUnique(envs);
      CollectIsDeclared(envs);
      var j := DeclaredIndex(envs, i);
      assert t[j] == (envs[i].0, envs[i].1.vscMapping.value);
    } else {
      assert envs[i].0 !in PyDict.Keys(t);
    }
  }

  /** Where environment `i`'s entry sits in the declared table. */
  lemma {:induction false} DeclaredIndex(envs: Envs, i: int) returns (j: int)
    requires 0 <= i < |envs| && envs[i].1.vscMapping.Some?
    ensures 0 <= j < |Declared(envs)|
    ensures Declared(envs)[j] == (envs[i].0, envs[i].1.vscMapping.value)
    decreases |envs|
  {
    if i == 0 {
      j := 0;
    } else {
      var k := DeclaredIndex(envs[1..], i - 1);
      j := if envs[0].1.vscMapping.Some? then k + 1 else k;
    }
  }

  /** The table never repeats an environment. */
  lemma {:induction false} CollectUnique(envs: Envs)
    ensures PyDict.UniqueKeys(Collect(envs))
    decreases |envs|
  {
    if envs != [] {
      var prefix := envs[..|envs| - 1];
      CollectUnique(prefix);
      var e := envs[|envs| - 1];
      if e.1.vscMapping.Some? {
        PyDict.SetKeepsUniqueKeys(Collect(prefix), e.0, e.1.vscMapping.value);
      }
    }
  }

  // ---------------------------------------------------------------------------
  // update_vscode_config

  const EnvFoldersKey := "envFolders"
  const ExtraPathsKey := "python.analysis.extraPaths"

  /** `str(hatch_path / f"{project_name}_{env_name}")`: the suffix is added
      for every environment, `default` included. */
  function EnvPath(base: string, project: string, env: string): string {
    Paths.Join(base, project + "_" + env)
  }

  /** One entry of `envFolders`. */
  function EnvFolder(base: string, project: string, env: string, mapping: string): Json {
    JObject([("envPath", JString(EnvPath(base, project, env))), ("pattern", JString(mapping + "/**"))])
  }

  lemma EnvFolderFields(base: string, project: string, env: string, mapping: string)
    ensures EnvFolder(base, project, env, mapping).JObject?
    ensures PyDict.Get(EnvFolder(base, project, env, mapping).members, "envPath") ==
      Some(JString(EnvPath(base, project, env)))
    ensures PyDict.Get(EnvFolder(base, project, env, mapping).members, "pattern") ==
      Some(JString(mapping + "/**"))
  {
    var m := EnvFolder(base, project, env, mapping).members;
    assert PyDict.IndexOf(m, "envPath") == 0;
    assert m[0].0 != "pattern";
    assert PyDict.IndexOf(m, "pattern") == 1;
  }

  /** `str(hatch_path / f"{project_name}_{env_name}") for env_name in mappings` */
  function ExtraPaths(base: string, project: string, mappings: Table): (r: seq<Json>)
    ensures |r| == |mappings|
    ensures forall i :: 0 <= i < |mappings| ==> r[i] == JString(EnvPath(base, project, mappings[i].0))
  {
    seq(|mappings|, i requires 0 <= i < |mappings| => JString(EnvPath(base, project, mappings[i].0)))
  }

  /** Folder `i` of `folders` is exactly the object written for entry `i` of
      the table. */
  ghost predicate FoldersFollow(folders: seq<Json>, mappings: Table, base: string, project: string) {
    && |folders| == |mappings|
    && forall i :: 0 <= i < |mappings| ==> folders[i] == EnvFolder(base, project, mappings[i].0, mappings[i].1)
  }

  /** The analysis paths are the folders' `envPath`s, position by position. */
  lemma ExtraPathsAreFolderPaths(folders: seq<Json>, mappings: Table, base: string, project: string)
    requires FoldersFollow(folders, mappings, base, project)
    ensures |ExtraPaths(base, project, mappings)| == |folders|
    ensures forall i :: 0 <= i < |folders| ==>
      && folders[i].JObject?
      && PyDict.Get(folders[i].members, "envPath") == Some(ExtraPaths(base, project, mappings)[i])
  {
    forall i | 0 <= i < |folders|
      ensures folders[i].JObject?
      ensures PyDict.Get(folders[i].members, "envPath") == Some(ExtraPaths(base, project, mappings)[i])
    {
      EnvFolderFields(base, project, mappings[i].0, mappings[i].1);
    }
  }

  /** `update_vscode_config(mappings)`: the folders are built one per table
      entry, in order; nothing is written when the platform is not
      supported; otherwise `python.env.json` is written, then
      `settings.json` is read and written back with the analysis paths set. */
  method UpdateVscodeConfig(mappings: Table, host: Host, existing: SettingsFile) returns (effects: Effects)
    ensures GetHatchEnvPath(host).Err? ==>
      effects == Effects(None, None, Some(GetHatchEnvPath(host).error))
    ensures GetHatchEnvPath(host).Ok? ==>
      && effects.envFile.Some? && effects.envFile.value.JObject?
      && PyDict.Keys(effects.envFile.value.members) == [EnvFoldersKey]
      && PyDict.Get(effects.envFile.value.members, EnvFoldersKey).Some?
      && PyDict.Get(effects.envFile.value.members, EnvFoldersKey).value.JArray?
      && FoldersFollow(PyDict.Get(effects.envFile.value.members, EnvFoldersKey).value.items,
                       mappings, GetHatchEnvPath(host).value, host.cwdName)
    ensures GetHatchEnvPath(host).Ok? && LoadSettings(existing).Err? ==>
      effects.settingsFile == None && effects.raised == Some(LoadSettings(existing).error)
    ensures GetHatchEnvPath(host).Ok? && LoadSettings(existing).Ok? ==>
      && effects.raised == None
      && effects.settingsFile.Some? && effects.settingsFile.value.JObject?
      && PyDict.Get(effects.settingsFile.value.members, ExtraPathsKey) ==
           Some(JArray(ExtraPaths(GetHatchEnvPath(host).value, host.cwdName, mappings)))
      && (forall k :: k != ExtraPathsKey ==>
            PyDict.Get(effects.settingsFile.value.members, k) == PyDict.Get(LoadSettings(existing).value, k))
      && PyDict.Keys(LoadSettings(existing).value) <= PyDict.Keys(effects.settingsFile.value.members)
  {
    var folders: seq<Json> := [];
    var hatchPath := GetHatchEnvPath(host);
    if hatchPath.Err? {
      return Effects(None, None, Some(hatchPath.error));
    }
    var base, project := hatchPath.value, host.cwdName;
    for i := 0 to |mappings|
      invariant FoldersFollow(folders, mappings[..i], base, project)
    {
      var (name, mapping) := mappings[i];
      folders := folders + [EnvFolder(base, project, name, mapping)];
    }
    assert mappings[..|mappings|] == mappings;
    var envFile := JObject([(EnvFoldersKey, JArray(folders))]);
    var loaded := LoadSettings(existing);
    if loaded.Err? {
      return Effects(Some(envFile), None, Some(loaded.error));
    }
    var settings := PyDict.Set(loaded.value, ExtraPathsKey, JArray(ExtraPaths(base, project, mappings)));
    if ExtraPathsKey !in PyDict.Keys(loaded.value) {
      assert PyDict.Keys(settings) == PyDict.Keys(loaded.value) + [ExtraPathsKey];
    }
    return Effects(Some(envFile), Some(JObject(settings)), None);
  }
}
