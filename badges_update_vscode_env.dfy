/** The full updater, badges/src/hatch_vsc/update_vscode_env.py: derive the
    pattern -> environment table from the manifest, locate the environments
    and write the editor's interpreter settings. */
module BadgesUpdateVscodeEnv {
  import opened Outcomes
  import opened PyStr
  import PyDict
  import Paths
  import opened JsonDoc
  import opened Manifest

  // ---------------------------------------------------------------------------
  // Locating the environments: get_macos_hatch_path, get_hatch_env_path

  /** An entry of `Path.iterdir()`, with what `is_dir()` answers for it. */
  datatype DirEntry = DirEntry(name: string, isDir: bool)

  /** What `project_dir.exists()` and `project_dir.iterdir()` find: no such
      path, a path that cannot be listed (a regular file gives
      NotADirectoryError, an unreadable directory PermissionError), or the
      entries of the directory. */
  datatype Listing = Missing | Unlistable(error: Error) | Listed(entries: seq<DirEntry>)

  /** The outcome of `subprocess.run(['hatch', 'env', 'find'], ...)`. */
  datatype Probe = ProbeRaised | ProbeExited(returncode: int, stdout: string)

  /** What the updater reads from its surroundings. */
  datatype Host = Host(
    system: string,                          // platform.system()
    sysPlatform: string,                     // sys.platform
    user: Option<string>,                    // os.getenv("USER")
    cwdName: string,                         // Path.cwd().name
    projectListing: Listing,                 // the project's directory under the virtual root
    probe: Probe)

  const UserError := RuntimeError("Could not determine username")

  /** Where hatch keeps a user's virtual environments on macOS. */
  function VirtualRoot(user: string): string {
    "/Users/" + user + "/Library/Application Support/hatch/env/virtual"
  }

  /** The first directory in a listing, or -1. */
  function FirstDirIndex(entries: seq<DirEntry>): (k: int)
    ensures -1 <= k < |entries|
    ensures k >= 0 ==> entries[k].isDir && forall j :: 0 <= j < k ==> !entries[j].isDir
    ensures k < 0 ==> forall j :: 0 <= j < |entries| ==> !entries[j].isDir
  {
    if entries == [] then -1
    else if entries[0].isDir then 0
    else
      var j := FirstDirIndex(entries[1..]);
      if j < 0 then -1 else j + 1
  }

  /** What a listed project directory resolves to: its first sub-directory,
      or the directory itself when it holds none. */
  function SubdirOrSelf(projectDir: string, entries: seq<DirEntry>): (p: string)
    ensures (forall e :: e in entries ==> !e.isDir) ==> p == projectDir
    ensures forall k ::
      && 0 <= k < |entries| && entries[k].isDir
      && (forall j :: 0 <= j < k ==> !entries[j].isDir)
      ==> p == Paths.Join(projectDir, entries[k].name)
  {
    var k := FirstDirIndex(entries);
    if k >= 0 then Paths.Join(projectDir, entries[k].name) else projectDir
  }

  /** `get_macos_hatch_path()`: the project's directory under the user's
      virtual root, or the first directory inside it when there is one; an
      error from listing that directory escapes. */
  function GetMacosHatchPath(user: Option<string>, projectName: string, listing: Listing)
    : (r: Result<string>)
    ensures r.Err? <==> user == None || user == Some("") || listing.Unlistable?
    ensures user == None || user == Some("") ==> r == Err(UserError)
    ensures user.Some? && user.value != "" && listing.Unlistable? ==> r == Err(listing.error)
    ensures user.Some? && user.value != "" && listing.Missing? ==>
      r == Ok(Paths.Join(VirtualRoot(user.value), projectName))
    ensures user.Some? && user.value != "" && listing.Listed? ==>
      r == Ok(SubdirOrSelf(Paths.Join(VirtualRoot(user.value), projectName), listing.entries))
  {
    if user == None || user == Some("") then Err(UserError)
    else
      var projectDir := Paths.Join(VirtualRoot(user.value), projectName);
      match listing
      case Missing => Ok(projectDir)
      case Unlistable(e) => Err(e)
      case Listed(entries) => Ok(SubdirOrSelf(projectDir, entries))
  }

  /** `get_hatch_env_path()`: the macOS layout when `platform.system()` is
      Darwin in any case; elsewhere the parent of what `hatch env find`
      prints, when it exits with status 0. */
  function GetHatchEnvPath(host: Host): (r: Result<string>)
    ensures Lower(host.system) == "darwin" ==>
      r == GetMacosHatchPath(host.user, host.cwdName, host.projectListing)
    ensures Lower(host.system) != "darwin" ==>
      (r.Ok? <==> host.probe.ProbeExited? && host.probe.returncode == 0)
    ensures Lower(host.system) != "darwin" && r.Ok? ==>
      r.value == Paths.Parent(Strip(host.probe.stdout))
    ensures Lower(host.system) != "darwin" && r.Err? ==>
      r.error == NotImplementedError("Platform " + host.sysPlatform + " not supported yet")
  {
    if Lower(host.system) == "darwin" then
      GetMacosHatchPath(host.user, host.cwdName, host.projectListing)
    else if host.probe.ProbeExited? && host.probe.returncode == 0 then
      Ok(Paths.Parent(Strip(host.probe.stdout)))
    else
      Err(NotImplementedError("Platform " + host.sysPlatform + " not supported yet"))
  }

  // ---------------------------------------------------------------------------
  // infer_test_directory

  /** `" ".join(env_config.get("dependencies", [])).lower()` */
  function DependencyText(cfg: EnvConfig): string {
    Lower(Join(cfg.dependencies, " "))
  }

  /** `env_config.get("scripts", {}).get("test", "")` */
  function TestScript(cfg: EnvConfig): ScriptValue {
    match PyDict.Get(cfg.scripts, "test")
    case Some(v) => v
    case None => Str("")
  }

  predicate IsTestsPart(part: string) {
    StartsWith(part, "tests") || EndsWith(part, "tests")
  }

  /** `parts[i]` is the first part that names a tests directory. */
  predicate FirstTestsPartAt(parts: seq<string>, i: int) {
    0 <= i < |parts| && IsTestsPart(parts[i]) && forall j :: 0 <= j < i ==> !IsTestsPart(parts[j])
  }

  /** The scan `for part in parts: if ...: return part`, as a position (-1: none). */
  function TestsPartIndex(parts: seq<string>): (k: int)
    ensures k == -1 || FirstTestsPartAt(parts, k)
    ensures k == -1 <==> forall j :: 0 <= j < |parts| ==> !IsTestsPart(parts[j])
  {
    if parts == [] then -1
    else if IsTestsPart(parts[0]) then 0
    else
      var j := TestsPartIndex(parts[1..]);
      if j < 0 then -1 else j + 1
  }

  /** `infer_test_directory(env_config)` */
  function InferTestDirectory(cfg: EnvConfig): Option<string> {
    var deps := DependencyText(cfg);
    if Contains(deps, "pytest") then
      var args := TestScript(cfg);
      if args.Str? && StartsWith(args.text, "pytest") then
        var parts := SplitWs(args.text);
        var k := TestsPartIndex(parts);
        if k >= 0 then Some(parts[k]) else Some("tests")
      else Some("tests")
    else if Contains(deps, "behave") then
      var args := TestScript(cfg);
      if args.Str? && Contains(args.text, "behave") && Contains(args.text, "cd") then
        Some(Strip(Split(Split(args.text, "cd")[1], "&&")[0]))
      else Some("features")
    else None
  }

  /** With pytest among the dependencies, the first part of a `pytest...`
      test script that starts or ends with `tests`, else "tests"; otherwise,
      with behave, the trimmed text between the script's first `cd` and the
      next `cd` or `&&`, else "features"; otherwise nothing. */
  lemma InferTestDirectoryCases(cfg: EnvConfig)
    ensures
      var deps, script, r := DependencyText(cfg), TestScript(cfg), InferTestDirectory(cfg);
      Contains(deps, "pytest") ==>
        if script.Str? && StartsWith(script.text, "pytest")
           && exists i :: 0 <= i < |SplitWs(script.text)| && IsTestsPart(SplitWs(script.text)[i])
        then exists i :: FirstTestsPartAt(SplitWs(script.text), i) && r == Some(SplitWs(script.text)[i])
        else r == Some("tests")
    ensures
      var deps, script, r := DependencyText(cfg), TestScript(cfg), InferTestDirectory(cfg);
      !Contains(deps, "pytest") && Contains(deps, "behave") ==>
        if script.Str? && Contains(script.text, "behave") && Contains(script.text, "cd")
        then r == Some(Strip(Before(Before(After(script.text, "cd"), "cd"), "&&")))
        else r == Some("features")
    ensures
      var deps := DependencyText(cfg);
      !Contains(deps, "pytest") && !Contains(deps, "behave") ==> InferTestDirectory(cfg) == None
  {
  }

  // ---------------------------------------------------------------------------
  // get_environment_mappings

  /** Glob patterns to environment names, in precedence order. */
  type Table = PyDict.Dict<string>

  /** `f"{directory}/**/*"` */
  function Pattern(dir: string): string {
    dir + "/**/*"
  }

  const SourcePattern := "src/**/*"

  /** The table before any environment is looked at. */
  function Seed(): Table {
    [(SourcePattern, "default")]
  }

  /** `isinstance(script_cmd, str) and script_cmd.startswith("cd ")` */
  predicate IsCdCommand(v: ScriptValue) {
    v.Str? && StartsWith(v.text, "cd ")
  }

  /** The first script that is a `cd ` command, or -1. */
  function CdScriptIndex(scripts: PyDict.Dict<ScriptValue>): (k: int)
    ensures -1 <= k < |scripts|
    ensures k >= 0 ==> IsCdCommand(scripts[k].1) && forall j :: 0 <= j < k ==> !IsCdCommand(scripts[j].1)
    ensures k < 0 ==> forall j :: 0 <= j < |scripts| ==> !IsCdCommand(scripts[j].1)
  {
    if scripts == [] then -1
    else if IsCdCommand(scripts[0].1) then 0
    else
      var j := CdScriptIndex(scripts[1..]);
      if j < 0 then -1 else j + 1
  }

  /** The directory a `cd ` command names: the slice after the first single
      quote up to the next one when it uses `$(echo`, else its second
      whitespace-separated word, which is missing (IndexError) when nothing
      but whitespace follows `cd`. */
  function CdDirectory(cmd: string): Result<string> {
    if Contains(cmd, "$(echo") then
      var start := Find(cmd, "'") + 1;
      var end := FindFrom(cmd, "'", start);
      Ok(Slice(cmd, start, end))
    else
      var parts := SplitWs(cmd);
      if |parts| < 2 then Err(IndexError) else Ok(parts[1])
  }

  /** Step 2: the first `cd ` script, if any, maps its directory to the environment. */
  function ScriptStep(t: Table, name: string, scripts: PyDict.Dict<ScriptValue>): Result<Table> {
    var k := CdScriptIndex(scripts);
    if k < 0 then Ok(t)
    else
      match CdDirectory(scripts[k].1.text)
      case Err(e) => Err(e)
      case Ok(dir) => Ok(PyDict.Set(t, Pattern(dir), name))
  }

  /** Python's truth value of what `infer_test_directory` returns. */
  predicate IsUsable(dir: Option<string>) {
    dir.Some? && dir.value != ""
  }

  /** Steps 3 and 4: inference, then the environment's own name, each only
      while the name is not yet a value of the table. */
  function FallbackStep(t: Table, name: string, cfg: EnvConfig): Table {
    if name !in PyDict.Values(t) && IsUsable(InferTestDirectory(cfg)) then
      PyDict.Set(t, Pattern(InferTestDirectory(cfg).value), name)
    else if name !in PyDict.Values(t) then
      PyDict.Set(t, Pattern(name), name)
    else t
  }

  /** One pass of the loop over the declared environments. */
  function Step(t: Table, name: string, cfg: EnvConfig): Result<Table> {
    if name == "default" then Ok(t)
    else if cfg.vscMapping.Some? then Ok(PyDict.Set(t, Pattern(cfg.vscMapping.value), name))
    else
      match ScriptStep(t, name, cfg.scripts)
      case Err(e) => Err(e)
      case Ok(t1) => Ok(FallbackStep(t1, name, cfg))
  }

  /** The loop from table `t` over the environments still to come. */
  function Run(t: Table, envs: Envs): Result<Table>
    decreases |envs|
  {
    if envs == [] then Ok(t)
    else
      match Step(t, envs[0].0, envs[0].1)
      case Err(e) => Err(e)
      case Ok(t1) => Run(t1, envs[1..])
  }

  /** What `get_environment_mappings(config)` returns or raises. */
  function Mappings(config: Pyproject): Result<Table> {
    Run(Seed(), HatchEnvs(config))
  }

  /** `get_environment_mappings(config)` */
  method GetEnvironmentMappings(config: Pyproject) returns (r: Result<Table>)
    ensures r == Mappings(config)
  {
    var envs := HatchEnvs(config);
    var mappings := Seed();
    for i := 0 to |envs|
      invariant Run(mappings, envs[i..]) == Run(Seed(), envs)
    {
      assert envs[i..][0] == envs[i] && envs[i..][1..] == envs[i + 1..];
      var (name, cfg) := envs[i];
      ghost var before := mappings;
      assert Run(before, envs[i..]) ==
        match Step(before, name, cfg)
        case Err(e) => Err(e)
        case Ok(t) => Run(t, envs[i + 1..]);
      if name == "default" {
        assert Step(before, name, cfg) == Ok(mappings);
        continue;
      }
      if cfg.vscMapping.Some? {
        mappings := PyDict.Set(mappings, Pattern(cfg.vscMapping.value), name);
        assert Step(before, name, cfg) == Ok(mappings);
        continue;
      }
      var scripts := cfg.scripts;
      for j := 0 to |scripts|
        invariant mappings == before
        invariant forall m :: 0 <= m < j ==> !IsCdCommand(scripts[m].1)
      {
        var cmd := scripts[j].1;
        if cmd.Str? && StartsWith(cmd.text, "cd ") {
          assert CdScriptIndex(scripts) == j;
          var dir := CdDirectory(cmd.text);
          if dir.Err? {
            assert Step(before, name, cfg) == Err(dir.error);
            return Err(dir.error);
          }
          mappings := PyDict.Set(mappings, Pattern(dir.value), name);
          break;
        }
      }
      assert ScriptStep(before, name, scripts) == Ok(mappings);
      ghost var afterScripts := mappings;
      assert Step(before, name, cfg) == Ok(FallbackStep(afterScripts, name, cfg));
      if name !in PyDict.Values(mappings) {
        var testDir := InferTestDirectory(cfg);
        if testDir.Some? && testDir.value != "" {
          mappings := PyDict.Set(mappings, Pattern(testDir.value), name);
          assert Step(before, name, cfg) == Ok(mappings);
          continue;
        }
      }
      if name !in PyDict.Values(mappings) {
        mappings := PyDict.Set(mappings, Pattern(name), name);
      }
      assert Step(before, name, cfg) == Ok(mappings);
    }
    return Ok(mappings);
  }

  // ---------------------------------------------------------------------------
  // What the derivation promises

  /** With `$(echo`, the directory is the text between the first two single quotes. */
  lemma CdDirectoryQuoted(pre: string, dir: string, post: string)
    requires Contains(pre + "'" + dir + "'" + post, "$(echo")
    requires '\'' !in pre && '\'' !in dir
    ensures CdDirectory(pre + "'" + dir + "'" + post) == Ok(dir)
  {
    var cmd := pre + "'" + dir + "'" + post;
    var q1, q2 := |pre|, |pre| + 1 + |dir|;
    assert forall j :: 0 <= j < q1 ==> cmd[j] == pre[j];
    assert forall j :: q1 < j < q2 ==> cmd[j] == dir[j - q1 - 1];
    assert cmd[q1 + 1..q2] == dir;
    QuoteAt(cmd, q1);
    QuoteAt(cmd, q2);
    assert Find(cmd, "'") == q1 by {
      forall j | 0 <= j < q1 ensures !OccursAt(cmd, "'", j) { QuoteAt(cmd, j); }
    }
    assert FindFrom(cmd, "'", q1 + 1) == q2 by {
      forall j | q1 + 1 <= j < q2 ensures !OccursAt(cmd, "'", j) { QuoteAt(cmd, j); }
    }
    assert Slice(cmd, q1 + 1, q2) == cmd[q1 + 1..q2];
  }

  /** With `$(echo` and no quote at all, `find` gives -1 twice and the slice
      `[0:-1]` drops only the last character. */
  lemma CdDirectoryUnquoted(cmd: string)
    requires Contains(cmd, "$(echo")
    requires forall j :: 0 <= j < |cmd| ==> cmd[j] != '\''
    ensures CdDirectory(cmd) == Ok(cmd[..|cmd| - 1])
  {
    assert Find(cmd, "'") == -1 by {
      forall j | 0 <= j < |cmd| ensures !OccursAt(cmd, "'", j) { QuoteAt(cmd, j); }
      assert !Contains(cmd, "'");
    }
    assert FindFrom(cmd, "'", 0) == -1;
  }

  /** With `$(echo` and exactly one quote, `find` gives the quote and then
      -1, so the slice `[q+1:-1]` keeps the text after the quote but its last
      character. */
  lemma CdDirectoryOneQuote(pre: string, post: string)
    requires Contains(pre + "'" + post, "$(echo")
    requires '\'' !in pre && '\'' !in post
    ensures CdDirectory(pre + "'" + post) == Ok(if post == "" then "" else post[..|post| - 1])
  {
    var cmd := pre + "'" + post;
    var q := |pre|;
    assert cmd[q] == '\'';
    assert forall j :: 0 <= j < q ==> cmd[j] != '\'' by {
      forall j | 0 <= j < q ensures cmd[j] != '\'' { assert cmd[j] == pre[j]; }
    }
    FirstQuoteAt(cmd, q);
    assert forall j :: q + 1 <= j < |cmd| ==> cmd[j] != '\'' by {
      forall j | q + 1 <= j < |cmd| ensures cmd[j] != '\'' { assert cmd[j] == post[j - q - 1]; }
    }
    NoQuoteFrom(cmd, q + 1);
    assert CdDirectory(cmd) == Ok(Slice(cmd, q + 1, -1));
    assert cmd[q + 1..] == post;
    if post != "" {
      assert cmd[q + 1..|cmd| - 1] == post[..|post| - 1];
    }
  }

  /** `s.find("'")` is the position of the first quote. */
  lemma FirstQuoteAt(s: string, q: int)
    requires 0 <= q < |s| && s[q] == '\''
    requires forall j :: 0 <= j < q ==> s[j] != '\''
    ensures Find(s, "'") == q
  {
    QuoteAt(s, q);
    forall j | 0 <= j < q ensures !OccursAt(s, "'", j) { QuoteAt(s, j); }
  }

  /** `s.find("'", start)` is -1 when no quote lies at or after `start`. */
  lemma NoQuoteFrom(s: string, start: nat)
    requires forall j :: start <= j < |s| ==> s[j] != '\''
    ensures FindFrom(s, "'", start) == -1
  {
    forall j | start <= j < |s| ensures !OccursAt(s, "'", j) { QuoteAt(s, j); }
  }

  lemma QuoteAt(s: string, j: int)
    requires 0 <= j < |s|
    ensures OccursAt(s, "'", j) <==> s[j] == '\''
  {
    assert s[j..j + 1] == [s[j]];
  }

  /** Without `$(echo`, the directory of `cd <words>` is the first word after
      `cd `; with only whitespace after it, indexing the split raises IndexError. */
  lemma CdDirectoryWords(cmd: string)
    requires !Contains(cmd, "$(echo") && IsCdCommand(Str(cmd))
    ensures var rest := SplitWs(cmd[3..]);
      CdDirectory(cmd) == if rest == [] then Err(IndexError) else Ok(rest[0])
  {
    assert cmd == "cd" + cmd[2..];
    assert IsToken("cd");
    SplitWsToken("cd", cmd[2..]);
    assert cmd[2..][1..] == cmd[3..];
  }

  /** An explicit `vsc-mapping` decides the entry alone: the environment's
      scripts and dependencies are never looked at. */
  lemma ExplicitMappingDecides(t: Table, name: string, cfg: EnvConfig, other: EnvConfig)
    requires name != "default"
    requires cfg.vscMapping.Some? && other.vscMapping == cfg.vscMapping
    ensures Step(t, name, cfg) == Step(t, name, other)
    ensures Step(t, name, cfg).Ok?
    ensures PyDict.Get(Step(t, name, cfg).value, Pattern(cfg.vscMapping.value)) == Some(name)
    ensures forall k :: k != Pattern(cfg.vscMapping.value) ==>
      PyDict.Get(Step(t, name, cfg).value, k) == PyDict.Get(t, k)
  {
  }

  /** Only the first `cd ` script counts: scripts after it are never scanned. */
  lemma FirstCdScriptDecides(t: Table, name: string, s1: PyDict.Dict<ScriptValue>, s2: PyDict.Dict<ScriptValue>)
    requires 0 <= CdScriptIndex(s1) < |s2|
    requires s1[..CdScriptIndex(s1) + 1] == s2[..CdScriptIndex(s1) + 1]
    ensures ScriptStep(t, name, s1) == ScriptStep(t, name, s2)
  {
    var k := CdScriptIndex(s1);
    assert forall j :: 0 <= j <= k ==> s1[j] == s2[j] by {
      forall j | 0 <= j <= k ensures s1[j] == s2[j] {
        assert s1[..k + 1][j] == s2[..k + 1][j];
      }
    }
    assert forall j :: 0 <= j < k ==> !IsCdCommand(s2[j].1);
    assert IsCdCommand(s2[k].1);
    assert CdScriptIndex(s2) == k;
    assert s1[k].1.text == s2[k].1.text;
  }

  /** A script that is not a string is skipped: inserting one anywhere
      leaves the `cd ` branch's outcome as it was. */
  lemma NonStringScriptIgnored(t: Table, name: string, s: PyDict.Dict<ScriptValue>, i: int, key: string)
    requires 0 <= i <= |s|
    ensures ScriptStep(t, name, s[..i] + [(key, NonString)] + s[i..]) == ScriptStep(t, name, s)
  {
    var s' := s[..i] + [(key, NonString)] + s[i..];
    var k := CdScriptIndex(s);
    CdScriptIndexAfterInsert(s, i, key);
    if 0 <= k < i {
      assert s'[k] == s[..i][k];
    } else if i <= k {
      assert s'[k + 1] == s[i..][k - i];
    }
  }

  lemma {:induction false} CdScriptIndexAfterInsert(s: PyDict.Dict<ScriptValue>, i: int, key: string)
    requires 0 <= i <= |s|
    ensures var k := CdScriptIndex(s);
      CdScriptIndex(s[..i] + [(key, NonString)] + s[i..]) ==
        if k < 0 then -1 else if k < i then k else k + 1
    decreases i
  {
    var s' := s[..i] + [(key, NonString)] + s[i..];
    if i == 0 {
      assert s'[1..] == s;
    } else {
      assert s'[0] == s[0];
      assert s'[1..] == s[1..][..i - 1] + [(key, NonString)] + s[1..][i - 1..];
      CdScriptIndexAfterInsert(s[1..], i - 1, key);
    }
  }

  /** Once the `cd ` branch has mapped the environment, inference and the name
      fallback add nothing; they run only while the name is not a value. */
  lemma FallbackOnlyWhenUnmapped(t: Table, name: string, cfg: EnvConfig)
    requires name in PyDict.Values(t)
    ensures FallbackStep(t, name, cfg) == t
  {
  }

  /** After its pass, an environment other than `default` is a value of the
      table; nothing is removed, the keys keep their order, at most one key is
      added, and at most one key changes its value, to that environment. */
  lemma StepMapsEnvironment(t: Table, name: string, cfg: EnvConfig)
    requires name != "default"
    requires Step(t, name, cfg).Ok?
    ensures var t' := Step(t, name, cfg).value;
      && name in PyDict.Values(t')
      && PyDict.Keys(t) <= PyDict.Keys(t')
      && |t'| <= |t| + 1
      && exists key :: ChangesAtMost(t, t', key, name)
  {
    var t' := Step(t, name, cfg).value;
    var key;
    if cfg.vscMapping.Some? {
      key := Pattern(cfg.vscMapping.value);
    } else {
      var t1 := ScriptStep(t, name, cfg.scripts).value;
      var k := CdScriptIndex(cfg.scripts);
      if k >= 0 {
        key := Pattern(CdDirectory(cfg.scripts[k].1.text).value);
        assert t' == t1;
      } else if name in PyDict.Values(t) {
        key := name;
        assert t' == t;
      } else if IsUsable(InferTestDirectory(cfg)) {
        key := Pattern(InferTestDirectory(cfg).value);
      } else {
        key := Pattern(name);
      }
    }
    if t' != t {
      PyDict.SetGrowsKeys(t, key, name);
    }
    assert ChangesAtMost(t, t', key, name);
  }

  /** `t'` differs from `t` at most in the value of `key`, which becomes `v`. */
  ghost predicate ChangesAtMost(t: Table, t': Table, key: string, v: string) {
    && (PyDict.Get(t', key) == PyDict.Get(t, key) || PyDict.Get(t', key) == Some(v))
    && forall k :: k != key ==> PyDict.Get(t', k) == PyDict.Get(t, k)
  }

  /** An environment named `default` contributes nothing: dropping it from
      the manifest leaves the outcome unchanged. */
  lemma {:induction false} DefaultEnvironmentIgnored(t: Table, envs: Envs, i: int)
    requires 0 <= i < |envs| && envs[i].0 == "default"
    ensures Run(t, envs[..i] + envs[i + 1..]) == Run(t, envs)
    decreases i
  {
    if i == 0 {
      assert envs[..0] + envs[1..] == envs[1..];
    } else {
      var rest := envs[..i] + envs[i + 1..];
      assert rest[0] == envs[0];
      assert rest[1..] == envs[1..][..i - 1] + envs[1..][i..];
      match Step(t, envs[0].0, envs[0].1)
      case Err(_) =>
      case Ok(t1) => DefaultEnvironmentIgnored(t1, envs[1..], i - 1);
    }
  }

  /** What every table the derivation builds looks like: `src/**/*` is still
      its first key, no key repeats, every key is a `/**/*` pattern, and only
      that first entry can hold `default`: every other value is a declared
      environment other than `default`. */
  predicate WellFormed(t: Table, names: set<string>) {
    && |t| >= 1 && t[0].0 == SourcePattern
    && PyDict.UniqueKeys(t)
    && (forall i :: 0 <= i < |t| ==> EndsWith(t[i].0, "/**/*"))
    && (t[0].1 == "default" || t[0].1 in names)
    && (forall i :: 0 < i < |t| ==> t[i].1 != "default" && t[i].1 in names)
  }

  lemma SetWellFormed(t: Table, key: string, v: string, names: set<string>)
    requires WellFormed(t, names)
    requires EndsWith(key, "/**/*") && v in names && v != "default"
    ensures WellFormed(PyDict.Set(t, key, v), names)
  {
    var r := PyDict.Set(t, key, v);
    PyDict.SetKeepsUniqueKeys(t, key, v);
    forall i | 0 <= i < |r|
      ensures EndsWith(r[i].0, "/**/*")
      ensures i == 0 ==> r[i].1 == "default" || r[i].1 in names
      ensures i > 0 ==> r[i].1 != "default" && r[i].1 in names
    {
      assert r[i] == (key, v) || (i < |t| && r[i] == t[i]);
    }
    assert PyDict.Keys(r)[0] == PyDict.Keys(t)[0];
  }

  lemma PatternIsPattern(dir: string)
    ensures EndsWith(Pattern(dir), "/**/*")
  {
    assert Pattern(dir)[|dir|..] == "/**/*";
  }

  lemma StepWellFormed(t: Table, name: string, cfg: EnvConfig, names: set<string>)
    requires WellFormed(t, names) && name in names
    requires Step(t, name, cfg).Ok?
    ensures WellFormed(Step(t, name, cfg).value, names)
  {
    if name == "default" {
    } else if cfg.vscMapping.Some? {
      PatternIsPattern(cfg.vscMapping.value);
      SetWellFormed(t, Pattern(cfg.vscMapping.value), name, names);
    } else {
      var k := CdScriptIndex(cfg.scripts);
      var t1 := ScriptStep(t, name, cfg.scripts).value;
      if k >= 0 {
        var dir := CdDirectory(cfg.scripts[k].1.text).value;
        PatternIsPattern(dir);
        SetWellFormed(t, Pattern(dir), name, names);
      }
      assert WellFormed(t1, names);
      if name !in PyDict.Values(t1) && IsUsable(InferTestDirectory(cfg)) {
        PatternIsPattern(InferTestDirectory(cfg).value);
        SetWellFormed(t1, Pattern(InferTestDirectory(cfg).value), name, names);
      } else if name !in PyDict.Values(t1) {
        PatternIsPattern(name);
        SetWellFormed(t1, Pattern(name), name, names);
      }
    }
  }

  lemma {:induction false} RunWellFormed(t: Table, envs: Envs, names: set<string>)
    requires WellFormed(t, names)
    requires forall i :: 0 <= i < |envs| ==> envs[i].0 in names
    requires Run(t, envs).Ok?
    ensures WellFormed(Run(t, envs).value, names)
    decreases |envs|
  {
    if envs != [] {
      StepWellFormed(t, envs[0].0, envs[0].1, names);
      RunWellFormed(Step(t, envs[0].0, envs[0].1).value, envs[1..], names);
    }
  }

  /** Every table `get_environment_mappings` returns starts with the
      `src/**/*` entry it was seeded with (whose value a later environment may
      replace), repeats no key, holds only `<dir>/**/*` keys, and maps every
      other key to a declared environment other than `default`, so that the
      seeded entry is the only one that can hold `default`. */
  lemma MappingsWellFormed(config: Pyproject)
    requires Mappings(config).Ok?
    ensures WellFormed(Mappings(config).value, set e | e in PyDict.Keys(HatchEnvs(config)))
  {
    var envs := HatchEnvs(config);
    var names := set e | e in PyDict.Keys(envs);
    assert forall i :: 0 <= i < |envs| ==> envs[i].0 in names by {
      forall i | 0 <= i < |envs| ensures envs[i].0 in names {
        assert PyDict.Keys(envs)[i] == envs[i].0;
      }
    }
    assert EndsWith(SourcePattern, "/**/*");
    RunWellFormed(Seed(), envs, names);
  }

  // ---------------------------------------------------------------------------
  // update_vscode_config

  /** The directory name of an environment: the project's own for `default`,
      `<project>_<env>` for any other. */
  function EnvDirName(project: string, env: string): string {
    if env != "default" then project + "_" + env else project
  }

  function EnvPath(base: string, project: string, env: string): string {
    Paths.Join(base, EnvDirName(project, env))
  }

  function InterpreterPath(base: string, project: string, env: string): string {
    Paths.Join(Paths.Join(EnvPath(base, project, env), "bin"), "python")
  }

  /** Different environments never share a directory. */
  lemma EnvPathInjective(base: string, project: string, e1: string, e2: string)
    requires EnvPath(base, project, e1) == EnvPath(base, project, e2)
    ensures e1 == e2
  {
    var d1, d2 := EnvDirName(project, e1), EnvDirName(project, e2);
    JoinInjective(base, d1, d2);
    if e1 != "default" && e2 != "default" {
      assert d1[|project| + 1..] == e1 && d2[|project| + 1..] == e2;
    }
  }

  lemma JoinInjective(base: string, c1: string, c2: string)
    requires Paths.Join(base, c1) == Paths.Join(base, c2)
    ensures c1 == c2
  {
    var p1, p2 := Paths.Join(base, c1), Paths.Join(base, c2);
    if base == "." {
    } else if base == "/" {
      assert p1[1..] == c1 && p2[1..] == c2;
    } else {
      assert p1[|base| + 1..] == c1 && p2[|base| + 1..] == c2;
    }
  }

  /** The `python.envInterpreters` object: every pattern of the table, with
      the interpreter of the environment it maps to. */
  function EnvInterpreters(mappings: Table, base: string, project: string): (r: PyDict.Dict<Json>)
    ensures PyDict.Keys(r) == PyDict.Keys(mappings)
    ensures forall p :: (PyDict.Get(r, p) ==
      match PyDict.Get(mappings, p)
      case None => None
      case Some(env) => Some(JString(InterpreterPath(base, project, env))))
  {
    var r := seq(|mappings|, i requires 0 <= i < |mappings| =>
      (mappings[i].0, JString(InterpreterPath(base, project, mappings[i].1))));
    assert PyDict.Keys(r) == PyDict.Keys(mappings);
    forall p ensures PyDict.IndexOf(r, p) == PyDict.IndexOf(mappings, p) {
      PyDict.IndexOfByKeys(r, mappings, p);
    }
    r
  }

  /** The environments of the table, each once: `set(mappings.values())`,
      listed here in order of first appearance. */
  function DistinctValues(vs: seq<string>): (r: seq<string>)
    ensures forall x :: x in r <==> x in vs
    ensures forall i, j :: 0 <= i < j < |r| ==> r[i] != r[j]
    decreases |vs|
  {
    if vs == [] then []
    else
      var r := DistinctValues(vs[..|vs| - 1]);
      assert vs == vs[..|vs| - 1] + [vs[|vs| - 1]];
      if vs[|vs| - 1] in r then r else r + [vs[|vs| - 1]]
  }

  function ExtraPaths(base: string, project: string, envs: seq<string>): (r: seq<Json>)
    ensures |r| == |envs|
    ensures forall i :: 0 <= i < |envs| ==> r[i] == JString(EnvPath(base, project, envs[i]))
  {
    seq(|envs|, i requires 0 <= i < |envs| => JString(EnvPath(base, project, envs[i])))
  }

  const InterpretersKey := "python.envInterpreters"
  const DefaultInterpreterKey := "python.defaultInterpreterPath"
  const ExtraPathsKey := "python.analysis.extraPaths"

  /** The settings after the run: the two keys are set, every other key keeps
      its value and its place, and the analysis paths name every environment
      of the table once and nothing else. */
  ghost predicate SettingsUpdated(s: PyDict.Dict<Json>, before: PyDict.Dict<Json>, mappings: Table, base: string, project: string) {
    && PyDict.Get(s, DefaultInterpreterKey) == Some(JString(InterpreterPath(base, project, "default")))
    && PyDict.Get(s, ExtraPathsKey).Some? && PyDict.Get(s, ExtraPathsKey).value.JArray?
    && (var xs := PyDict.Get(s, ExtraPathsKey).value.items;
        && (forall i, j :: 0 <= i < j < |xs| ==> xs[i] != xs[j])
        && (forall env :: env in PyDict.Values(mappings) ==> JString(EnvPath(base, project, env)) in xs)
        && (forall x :: x in xs ==> exists env :: env in PyDict.Values(mappings) && x == JString(EnvPath(base, project, env))))
    && (forall k :: k != DefaultInterpreterKey && k != ExtraPathsKey ==> PyDict.Get(s, k) == PyDict.Get(before, k))
    && PyDict.Keys(before) <= PyDict.Keys(s)
  }

  /** `update_vscode_config(mappings)`: nothing is written when the
      environments cannot be located; otherwise `python.env.json` is written
      first, then `settings.json` is read, updated and written back, unless
      reading it raises. */
  method UpdateVscodeConfig(mappings: Table, host: Host, existing: SettingsFile) returns (effects: Effects)
    ensures GetHatchEnvPath(host).Err? ==>
      effects == Effects(None, None, Some(GetHatchEnvPath(host).error))
    ensures GetHatchEnvPath(host).Ok? ==>
      effects.envFile == Some(JObject([(InterpretersKey,
        JObject(EnvInterpreters(mappings, GetHatchEnvPath(host).value, host.cwdName)))]))
    ensures GetHatchEnvPath(host).Ok? && LoadSettings(existing).Err? ==>
      effects.settingsFile == None && effects.raised == Some(LoadSettings(existing).error)
    ensures GetHatchEnvPath(host).Ok? && LoadSettings(existing).Ok? ==>
      && effects.raised == None
      && effects.settingsFile.Some? && effects.settingsFile.value.JObject?
      && SettingsUpdated(effects.settingsFile.value.members, LoadSettings(existing).value,
                         mappings, GetHatchEnvPath(host).value, host.cwdName)
  {
    var hatchPath := GetHatchEnvPath(host);
    if hatchPath.Err? {
      return Effects(None, None, Some(hatchPath.error));
    }
    var base, project := hatchPath.value, host.cwdName;
    var envFile := JObject([(InterpretersKey, JObject(EnvInterpreters(mappings, base, project)))]);
    var loaded := LoadSettings(existing);
    if loaded.Err? {
      return Effects(Some(envFile), None, Some(loaded.error));
    }
    var settings := loaded.value;
    settings := PyDict.Set(settings, DefaultInterpreterKey, JString(InterpreterPath(base, project, "default")));
    settings := PyDict.Set(settings, ExtraPathsKey, JArray(ExtraPaths(base, project, DistinctValues(PyDict.Values(mappings)))));
    SettingsAfterUpdate(loaded.value, mappings, base, project);
    return Effects(Some(envFile), Some(JObject(settings)), None);
  }

  /** The two assignments of `update_vscode_config` leave the settings as
      `SettingsUpdated` describes. */
  lemma SettingsAfterUpdate(before: PyDict.Dict<Json>, mappings: Table, base: string, project: string)
    ensures
      var s1 := PyDict.Set(before, DefaultInterpreterKey, JString(InterpreterPath(base, project, "default")));
      var xs := ExtraPaths(base, project, DistinctValues(PyDict.Values(mappings)));
      SettingsUpdated(PyDict.Set(s1, ExtraPathsKey, JArray(xs)), before, mappings, base, project)
  {
    var s1 := PyDict.Set(before, DefaultInterpreterKey, JString(InterpreterPath(base, project, "default")));
    var xs := ExtraPaths(base, project, DistinctValues(PyDict.Values(mappings)));
    ExtraPathsOfDistinct(base, project, PyDict.Values(mappings));
    PyDict.SetGrowsKeys(before, DefaultInterpreterKey, JString(InterpreterPath(base, project, "default")));
    PyDict.SetGrowsKeys(s1, ExtraPathsKey, JArray(xs));
  }

  /** One analysis path per environment of the table, none twice. */
  lemma ExtraPathsOfDistinct(base: string, project: string, vs: seq<string>)
    ensures var xs := ExtraPaths(base, project, DistinctValues(vs));
      && (forall i, j :: 0 <= i < j < |xs| ==> xs[i] != xs[j])
      && (forall env :: env in vs ==> JString(EnvPath(base, project, env)) in xs)
      && (forall x :: x in xs ==> exists env :: env in vs && x == JString(EnvPath(base, project, env)))
  {
    var envs := DistinctValues(vs);
    var xs := ExtraPaths(base, project, envs);
    forall i, j | 0 <= i < j < |xs| ensures xs[i] != xs[j] {
      if xs[i] == xs[j] { EnvPathInjective(base, project, envs[i], envs[j]); }
    }
    forall env | env in vs ensures JString(EnvPath(base, project, env)) in xs {
      var i :| 0 <= i < |envs| && envs[i] == env;
      assert xs[i] == JString(EnvPath(base, project, env));
    }
    forall x | x in xs ensures exists env :: env in vs && x == JString(EnvPath(base, project, env)) {
      var i :| 0 <= i < |xs| && xs[i] == x;
      assert envs[i] in vs;
    }
  }
}
