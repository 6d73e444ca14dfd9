/** Concrete runs of the full updater: the cases its test suite checks, and
    the quirks of the code as written. */
module BadgesExamples {
  import opened Outcomes
  import opened PyStr
  import PyDict
  import Paths
  import opened JsonDoc
  import opened Manifest
  import opened BadgesUpdateVscodeEnv

  function Env(deps: seq<string>, scripts: PyDict.Dict<ScriptValue>): EnvConfig {
    EnvConfig(None, scripts, deps)
  }

  function WithEnvs(envs: Envs): Pyproject {
    Pyproject(Some(Tool(Some(Hatch(Some(envs))))))
  }

  lemma LowerOfLowercase(s: string)
    requires forall k :: 0 <= k < |s| ==> !('A' <= s[k] <= 'Z')
    ensures Lower(s) == s
  {
  }

  // ---------------------------------------------------------------------------
  // infer_test_directory

  lemma TestScriptOf(deps: seq<string>, v: ScriptValue)
    ensures TestScript(Env(deps, [("test", v)])) == v
  {
    assert PyDict.IndexOf([("test", v)], "test") == 0;
  }

  /** The dependency text of a lone pytest or behave dependency. */
  lemma SingleDependency(dep: string)
    requires dep == "pytest" || dep == "behave"
    ensures DependencyText(Env([dep], [])) == dep
    ensures Contains(dep, "pytest") <==> dep == "pytest"
    ensures Contains(dep, "behave") <==> dep == "behave"
  {
    LowerOfLowercase(dep);
    assert OccursAt(dep, dep, 0);
    if dep == "pytest" { MissingChar(dep, "behave", 0); } else { MissingChar(dep, "pytest", 0); }
  }

  /** pytest with `pytest tests`: the `tests` part. */
  lemma InferPytest()
    ensures InferTestDirectory(Env(["pytest", "pytest-cov"], [("test", Str("pytest tests"))])) == Some("tests")
  {
    var cfg := Env(["pytest", "pytest-cov"], [("test", Str("pytest tests"))]);
    assert Join(cfg.dependencies, " ") == "pytest pytest-cov";
    LowerOfLowercase("pytest pytest-cov");
    assert OccursAt("pytest pytest-cov", "pytest", 0);
    TestScriptOf(cfg.dependencies, Str("pytest tests"));
    PytestTests();
  }

  lemma PytestTests()
    ensures SplitWs("pytest tests") == ["pytest", "tests"]
    ensures TestsPartIndex(["pytest", "tests"]) == 1
  {
    assert Join(["pytest", "tests"], " ") == "pytest tests";
    SplitWsJoin(["pytest", "tests"]);
    assert !IsTestsPart("pytest");
    assert IsTestsPart("tests");
  }

  /** A test script that is not a string: the default `tests`. */
  lemma InferPytestNonStringScript()
    ensures InferTestDirectory(Env(["pytest"], [("test", NonString)])) == Some("tests")
  {
    SingleDependency("pytest");
    assert Env(["pytest"], [("test", NonString)]).dependencies == Env(["pytest"], []).dependencies;
    TestScriptOf(["pytest"], NonString);
  }

  /** behave with `cd features && behave`: the directory after `cd`. */
  lemma InferBehave()
    ensures InferTestDirectory(Env(["behave"], [("test", Str("cd features && behave"))])) == Some("features")
  {
    BehaveText("cd features && behave", "features", " behave", 15);
    BehaveDirectory("cd features && behave", "features", " behave");
  }

  /** behave with `cd features/acceptance && behave`. */
  lemma InferBehaveNested()
    ensures InferTestDirectory(Env(["behave"], [("test", Str("cd features/acceptance && behave"))]))
      == Some("features/acceptance")
  {
    NestedParts();
    NestedDir();
    BehaveText("cd features/acceptance && behave", "features/acceptance", " behave", 26);
    BehaveDirectory("cd features/acceptance && behave", "features/acceptance", " behave");
  }

  /** How a concrete behave script splits into the pieces `BehaveDirectory` needs. */
  lemma BehaveText(text: string, dir: string, rest: string, at: int)
    requires text == "cd" + " " + dir + " " + "&&" + rest
    requires 'd' !in dir + rest
    requires 0 <= at <= |text| - 6 && text[at..at + 6] == "behave"
    ensures !Contains(" " + dir + " " + "&&" + rest, "cd")
    ensures Contains(text, "behave")
  {
    assert OccursAt(text, "behave", at);
    var after := " " + dir + " " + "&&" + rest;
    assert 'd' !in after by {
      forall k | 0 <= k < |after| ensures after[k] != 'd' {
        if 1 <= k < 1 + |dir| { assert after[k] == (dir + rest)[k - 1]; }
        else if k >= |dir| + 4 { assert after[k] == (dir + rest)[k - 4]; }
      }
    }
    MissingChar(after, "cd", 1);
  }

  /** Neither framework among the dependencies: nothing. */
  lemma InferNothing()
    ensures InferTestDirectory(Env(["requests"], [])) == None
  {
    LowerOfLowercase("requests");
    MissingChar("requests", "pytest", 0);
    MissingChar("requests", "behave", 0);
  }

  /** `split("cd")` splits on the first `cd` anywhere: in `cd abcd && behave`
      the second piece stops at the `cd` inside `abcd`. */
  lemma InferBehaveSplitsInsideWord()
    ensures InferTestDirectory(Env(["behave"], [("test", Str("cd abcd && behave"))])) == Some("ab")
  {
    InsideWordParts();
    AfterLeadingCd(" abcd && behave");
    BehaveBranch("cd abcd && behave");
    SecondCdInsideWord();
  }

  lemma InsideWordParts()
    ensures "cd abcd && behave" == "cd" + " abcd && behave"
    ensures Contains("cd abcd && behave", "behave")
  {
    assert OccursAt("cd abcd && behave", "behave", 11);
  }

  /** The behave branch on a script that names both behave and `cd`. */
  lemma BehaveBranch(text: string)
    requires Contains(text, "behave") && Contains(text, "cd")
    ensures InferTestDirectory(Env(["behave"], [("test", Str(text))])) ==
      Some(Strip(Before(Before(After(text, "cd"), "cd"), "&&")))
  {
    SingleDependency("behave");
    TestScriptOf(["behave"], Str(text));
    assert Env(["behave"], [("test", Str(text))]).dependencies == Env(["behave"], []).dependencies;
  }

  lemma SecondCdInsideWord()
    ensures Strip(Before(Before(" abcd && behave", "cd"), "&&")) == "ab"
  {
    var after := " abcd && behave";
    assert OccursAt(after, "cd", 3);
    FindAt(after, "cd", 3);
    assert Before(after, "cd") == " ab";
    MissingChar(" ab", "&&", 0);
    StripIs(" ab", 1, 3);
  }

  /** The behave branch on a script `cd <dir> &&<rest>` with no other `cd`. */
  lemma BehaveDirectory(text: string, dir: string, rest: string)
    requires text == "cd" + " " + dir + " " + "&&" + rest
    requires dir != "" && !IsSpace(dir[0]) && !IsSpace(dir[|dir| - 1]) && '&' !in dir
    requires !Contains(" " + dir + " " + "&&" + rest, "cd")
    requires Contains(text, "behave")
    ensures InferTestDirectory(Env(["behave"], [("test", Str(text))])) == Some(dir)
  {
    BehavePieces(dir, rest);
    BehaveBranch(text);
  }

  lemma BehavePieces(dir: string, rest: string)
    requires dir != "" && !IsSpace(dir[0]) && !IsSpace(dir[|dir| - 1]) && '&' !in dir
    requires !Contains(" " + dir + " " + "&&" + rest, "cd")
    ensures var text := "cd" + " " + dir + " " + "&&" + rest;
      Contains(text, "cd") && Strip(Before(Before(After(text, "cd"), "cd"), "&&")) == dir
  {
    var piece := " " + dir + " ";
    var after := piece + "&&" + rest;
    assert "cd" + " " + dir + " " + "&&" + rest == "cd" + after;
    assert after == " " + dir + " " + "&&" + rest;
    AfterLeadingCd(after);
    AmpAfter(piece, rest);
    StripPadded(dir);
  }

  lemma AfterLeadingCd(after: string)
    ensures Contains("cd" + after, "cd") && After("cd" + after, "cd") == after
  {
    assert OccursAt("cd" + after, "cd", 0);
    FindAt("cd" + after, "cd", 0);
  }

  lemma StripPadded(dir: string)
    requires dir != "" && !IsSpace(dir[0]) && !IsSpace(dir[|dir| - 1])
    ensures Strip(" " + dir + " ") == dir
  {
    var piece := " " + dir + " ";
    StripIs(piece, 1, |piece| - 1);
    assert piece[1..|piece| - 1] == dir;
  }

  lemma AmpAfter(piece: string, rest: string)
    requires '&' !in piece
    ensures Before(piece + "&&" + rest, "&&") == piece
  {
    var after := piece + "&&" + rest;
    assert OccursAt(after, "&&", |piece|);
    assert after[..|piece|] == piece;
    FindAt(after, "&&", |piece|);
  }

  // ---------------------------------------------------------------------------
  // get_environment_mappings

  /** A manifest with one environment: its pass decides the table. */
  lemma SingleEnvironment(name: string, cfg: EnvConfig)
    ensures Mappings(WithEnvs([(name, cfg)])) == Step(Seed(), name, cfg)
  {
    var envs := [(name, cfg)];
    assert HatchEnvs(WithEnvs(envs)) == envs;
    assert envs[0] == (name, cfg) && envs[1..] == [];
    match Step(Seed(), name, cfg)
    case Err(_) =>
    case Ok(t1) => assert Run(t1, []) == Ok(t1);
  }

  lemma AddToSeed(key: string, v: string)
    requires key != SourcePattern
    ensures PyDict.Set(Seed(), key, v) == Seed() + [(key, v)]
  {
    assert PyDict.Keys(Seed()) == [SourcePattern];
  }

  /** One environment whose pass adds `<dir>/**/*` after the seed. */
  lemma OneEntry(name: string, cfg: EnvConfig, dir: string)
    requires Step(Seed(), name, cfg) == Ok(Seed() + [(Pattern(dir), name)])
    ensures Mappings(WithEnvs([(name, cfg)])) == Ok([("src/**/*", "default"), (dir + "/**/*", name)])
  {
    SingleEnvironment(name, cfg);
    assert Seed() + [(Pattern(dir), name)] == [("src/**/*", "default"), (dir + "/**/*", name)];
  }

  /** The pass of an environment with neither a mapping nor a `cd ` script:
      the inferred directory, or else its name. */
  lemma FallbackStepAdds(name: string, cfg: EnvConfig, dir: string)
    requires name != "default" && cfg.vscMapping == None && CdScriptIndex(cfg.scripts) < 0
    requires InferTestDirectory(cfg) == Some(dir) || (InferTestDirectory(cfg) == None && dir == name)
    requires dir != "" && Pattern(dir) != SourcePattern
    ensures Step(Seed(), name, cfg) == Ok(Seed() + [(Pattern(dir), name)])
  {
    assert PyDict.Values(Seed()) == ["default"];
    AddToSeed(Pattern(dir), name);
  }

  /** The pass of an environment whose first script is the `cd ` command `cmd`. */
  lemma CdStepAdds(cmd: string, dir: string)
    requires IsCdCommand(Str(cmd)) && CdDirectory(cmd) == Ok(dir) && Pattern(dir) != SourcePattern
    ensures Step(Seed(), "test", Env([], [("test", Str(cmd))])) == Ok(Seed() + [(Pattern(dir), "test")])
  {
    AddToSeed(Pattern(dir), "test");
    assert PyDict.Values(Seed() + [(Pattern(dir), "test")])[1] == "test";
  }

  /** pytest with `pytest tests`: `tests/**/*` maps to the environment. */
  lemma MappingsPytest()
    ensures Mappings(WithEnvs([("test", Env(["pytest"], [("test", Str("pytest tests"))]))])) ==
      Ok([("src/**/*", "default"), ("tests/**/*", "test")])
  {
    PytestStep();
    OneEntry("test", Env(["pytest"], [("test", Str("pytest tests"))]), "tests");
    TestsPattern();
  }

  lemma PytestStep()
    ensures Step(Seed(), "test", Env(["pytest"], [("test", Str("pytest tests"))])) ==
      Ok(Seed() + [(Pattern("tests"), "test")])
  {
    InferSinglePytest();
    FallbackStepAdds("test", Env(["pytest"], [("test", Str("pytest tests"))]), "tests");
  }

  lemma InferSinglePytest()
    ensures InferTestDirectory(Env(["pytest"], [("test", Str("pytest tests"))])) == Some("tests")
    ensures CdScriptIndex([("test", Str("pytest tests"))]) < 0
  {
    assert !IsCdCommand(Str("pytest tests"));
    SingleDependency("pytest");
    assert Env(["pytest"], [("test", Str("pytest tests"))]).dependencies == Env(["pytest"], []).dependencies;
    TestScriptOf(["pytest"], Str("pytest tests"));
    PytestTests();
  }

  /** An explicit `vsc-mapping`. */
  lemma MappingsExplicit()
    ensures Mappings(WithEnvs([("test", EnvConfig(Some("custom/tests"), [], []))])) ==
      Ok([("src/**/*", "default"), ("custom/tests/**/*", "test")])
  {
    AddToSeed(Pattern("custom/tests"), "test");
    OneEntry("test", EnvConfig(Some("custom/tests"), [], []), "custom/tests");
    assert "custom/tests" + "/**/*" == "custom/tests/**/*";
  }

  /** The test suite's plain `cd` script, for directory `dir`. */
  function CdScript(dir: string): string {
    "cd " + dir + " && pytest"
  }

  /** The test suite's `$(echo ...)` script, for directory `dir`. */
  function EchoScript(dir: string): string {
    "cd $(echo '" + dir + "') && pytest"
  }

  /** Only the `src` directory has the seeded pattern. */
  lemma PatternIsSource(dir: string)
    requires dir != "src"
    ensures Pattern(dir) != SourcePattern
  {
    assert Pattern(dir)[..|dir|] == dir;
    assert SourcePattern[..3] == "src";
  }

  /** `cd <dir> && pytest` (tests/test_config.py, with `custom/path`): the word after `cd`. */
  lemma MappingsCd(dir: string)
    requires IsToken(dir) && '$' !in dir && dir != "src"
    ensures Mappings(WithEnvs([("test", Env([], [("test", Str(CdScript(dir)))]))])) ==
      Ok([("src/**/*", "default"), (dir + "/**/*", "test")])
  {
    CdScriptDirectory(dir);
    PatternIsSource(dir);
    CdStepAdds(CdScript(dir), dir);
    OneEntry("test", Env([], [("test", Str(CdScript(dir)))]), dir);
  }

  lemma CdScriptDirectory(dir: string)
    requires IsToken(dir) && '$' !in dir
    ensures IsCdCommand(Str(CdScript(dir)))
    ensures CdDirectory(CdScript(dir)) == Ok(dir)
  {
    var cmd := CdScript(dir);
    MissingChar(cmd, "$(echo", 0);
    assert cmd[..3] == "cd ";
    assert cmd[3..] == dir + " && pytest";
    assert " " + ("&&" + " " + "pytest") == " && pytest";
    assert [dir, "&&", "pytest"][1..] == ["&&", "pytest"] && ["&&", "pytest"][1..] == ["pytest"];
    assert Join(["&&", "pytest"], " ") == "&&" + " " + "pytest";
    assert Join([dir, "&&", "pytest"], " ") == dir + " " + ("&&" + " " + "pytest");
    assert dir + " && pytest" == Join([dir, "&&", "pytest"], " ");
    assert IsToken("&&") && IsToken("pytest");
    SplitWsJoin([dir, "&&", "pytest"]);
    CdDirectoryWords(cmd);
  }

  /** `cd $(echo '<dir>') && pytest` (tests/test_config.py, with `custom/path`):
      the text between the quotes. */
  lemma MappingsCdEcho(dir: string)
    requires '\'' !in dir && dir != "src"
    ensures Mappings(WithEnvs([("test", Env([], [("test", Str(EchoScript(dir)))]))])) ==
      Ok([("src/**/*", "default"), (dir + "/**/*", "test")])
  {
    EchoScriptDirectory(dir);
    PatternIsSource(dir);
    CdStepAdds(EchoScript(dir), dir);
    OneEntry("test", Env([], [("test", Str(EchoScript(dir)))]), dir);
  }

  lemma EchoScriptDirectory(dir: string)
    requires '\'' !in dir
    ensures IsCdCommand(Str(EchoScript(dir)))
    ensures CdDirectory(EchoScript(dir)) == Ok(dir)
  {
    var cmd := EchoScript(dir);
    assert "cd $(echo " + "'" == "cd $(echo '";
    assert "'" + ") && pytest" == "') && pytest";
    assert cmd == "cd $(echo " + "'" + dir + "'" + ") && pytest";
    assert "cd " + "$(echo" + " '" == "cd $(echo '";
    assert cmd == "cd " + "$(echo" + (" '" + dir + "') && pytest");
    OccursInMiddle("cd ", "$(echo", " '" + dir + "') && pytest");
    CdDirectoryQuoted("cd $(echo ", dir, ") && pytest");
    assert cmd[..3] == "cd ";
  }

  lemma EmptyDependencies(cfg: EnvConfig)
    requires cfg.dependencies == []
    ensures InferTestDirectory(cfg) == None
  {
    assert Lower(Join([], " ")) == "";
    MissingChar("", "pytest", 0);
    MissingChar("", "behave", 0);
  }

  /** An environment with nothing to go on: its own name. */
  lemma MappingsFallback()
    ensures Mappings(WithEnvs([("custom", EnvConfig(None, [], []))])) ==
      Ok([("src/**/*", "default"), ("custom/**/*", "custom")])
  {
    EmptyDependencies(EnvConfig(None, [], []));
    FallbackStepAdds("custom", EnvConfig(None, [], []), "custom");
    OneEntry("custom", EnvConfig(None, [], []), "custom");
    assert "custom" + "/**/*" == "custom/**/*";
  }

  /** A `test` script that is not a string is skipped: the name fallback. */
  lemma MappingsNonStringScript()
    ensures Mappings(WithEnvs([("test", EnvConfig(None, [("test", NonString)], []))])) ==
      Ok([("src/**/*", "default"), ("test/**/*", "test")])
  {
    EmptyDependencies(EnvConfig(None, [("test", NonString)], []));
    FallbackStepAdds("test", EnvConfig(None, [("test", NonString)], []), "test");
    OneEntry("test", EnvConfig(None, [("test", NonString)], []), "test");
    assert "test" + "/**/*" == "test/**/*";
  }

  /** An environment named `default` adds nothing. */
  lemma MappingsDefaultOnly()
    ensures Mappings(WithEnvs([("default", Env(["pytest"], []))])) == Ok(Seed())
  {
    SingleEnvironment("default", Env(["pytest"], []));
  }

  /** An environment named `src` without a mapping takes over the seeded
      `src/**/*` entry. */
  lemma MappingsSrcOverwritesSeed()
    ensures Mappings(WithEnvs([("src", EnvConfig(None, [], []))])) == Ok([("src/**/*", "src")])
  {
    SrcStep();
    SingleEnvironment("src", EnvConfig(None, [], []));
  }

  lemma SrcStep()
    ensures Step(Seed(), "src", EnvConfig(None, [], [])) == Ok([("src/**/*", "src")])
  {
    var cfg := EnvConfig(None, [], []);
    EmptyDependencies(cfg);
    assert ScriptStep(Seed(), "src", cfg.scripts) == Ok(Seed());
    assert PyDict.Values(Seed()) == ["default"];
    SrcPattern();
    assert PyDict.IndexOf(Seed(), "src/**/*") == 0;
    assert PyDict.Set(Seed(), "src/**/*", "src") == [("src/**/*", "src")];
    assert FallbackStep(Seed(), "src", cfg) == [("src/**/*", "src")];
  }

  /** Two environments: the second pass starts from the first one's table. */
  lemma TwoEnvironments(n1: string, c1: EnvConfig, n2: string, c2: EnvConfig, t1: Table, t2: Table)
    requires Step(Seed(), n1, c1) == Ok(t1) && Step(t1, n2, c2) == Ok(t2)
    ensures Mappings(WithEnvs([(n1, c1), (n2, c2)])) == Ok(t2)
  {
    var envs := [(n1, c1), (n2, c2)];
    assert HatchEnvs(WithEnvs(envs)) == envs;
    assert envs[1..] == [(n2, c2)] && envs[1..][1..] == [];
    assert Run(t2, []) == Ok(t2);
    assert Run(t1, envs[1..]) == Ok(t2);
  }

  /** Two environments mapping the same directory: the later one wins, in
      the earlier one's place. */
  lemma MappingsLaterWins()
    ensures Mappings(WithEnvs([("a", EnvConfig(Some("x"), [], [])), ("b", EnvConfig(Some("x"), [], []))])) ==
      Ok([("src/**/*", "default"), ("x/**/*", "b")])
  {
    FirstX();
    SecondX();
    TwoEnvironments("a", EnvConfig(Some("x"), [], []), "b", EnvConfig(Some("x"), [], []),
      [("src/**/*", "default"), ("x/**/*", "a")], [("src/**/*", "default"), ("x/**/*", "b")]);
  }

  lemma FirstX()
    ensures Step(Seed(), "a", EnvConfig(Some("x"), [], [])) == Ok([("src/**/*", "default"), ("x/**/*", "a")])
  {
    XPattern();
    AddToSeed("x/**/*", "a");
    assert Seed() + [("x/**/*", "a")] == [("src/**/*", "default"), ("x/**/*", "a")];
  }

  lemma SecondX()
    ensures Step([("src/**/*", "default"), ("x/**/*", "a")], "b", EnvConfig(Some("x"), [], [])) ==
      Ok([("src/**/*", "default"), ("x/**/*", "b")])
  {
    XPattern();
    var t1 := [("src/**/*", "default"), ("x/**/*", "a")];
    assert PyDict.IndexOf(t1, "x/**/*") == 1;
    assert PyDict.Set(t1, "x/**/*", "b") == t1[1 := ("x/**/*", "b")];
    assert t1[1 := ("x/**/*", "b")] == [("src/**/*", "default"), ("x/**/*", "b")];
  }

  /** A script that is exactly `cd ` stops the run with IndexError. */
  lemma MappingsBareCd()
    ensures Mappings(WithEnvs([("test", Env([], [("test", Str("cd "))]))])) == Err(IndexError)
  {
    var cfg := Env([], [("test", Str("cd "))]);
    MissingChar("cd ", "$(echo", 0);
    assert "cd "[..3] == "cd ";
    CdDirectoryWords("cd ");
    assert "cd "[3..] == "";
    SingleEnvironment("test", cfg);
  }

  /** With `$(echo` and no quote, `find` gives -1 twice and the slice
      `[0:-1]` keeps all but the last character. */
  lemma EchoWithoutQuote()
    ensures CdDirectory("cd $(echo x)") == Ok("cd $(echo x")
  {
    var cmd := "cd $(echo x)";
    assert cmd == "cd " + "$(echo" + " x)";
    OccursInMiddle("cd ", "$(echo", " x)");
    assert forall j :: 0 <= j < |cmd| ==> cmd[j] != '\'';
    CdDirectoryUnquoted(cmd);
    assert cmd == "cd $(echo x" + ")";
    assert (("cd $(echo x" + ")")[..|cmd| - 1]) == "cd $(echo x";
  }

  // ---------------------------------------------------------------------------
  // get_hatch_env_path, get_macos_hatch_path

  /** `hatch env find` printing `/path/to/env` on Linux: its parent. */
  lemma HatchPathFromProbe()
    ensures GetHatchEnvPath(Host("Linux", "linux", None, "p", Missing, ProbeExited(0, "/path/to/env\n"))) ==
      Ok("/path/to")
  {
    LinuxIsNotDarwin();
    ProbeParent();
  }

  lemma LinuxIsNotDarwin()
    ensures Lower("Linux") != "darwin"
  {
    assert Lower("Linux")[0] == 'l';
  }

  /** The parent of the printed line, once stripped. */
  lemma ProbeParent()
    ensures Paths.Parent(Strip("/path/to/env\n")) == "/path/to"
  {
    StripLine("/path/to/env");
    assert "/path/to/env" + "\n" == "/path/to/env\n";
    assert Paths.Join("/path/to", "env") == "/path/to/env";
    Paths.ParentOfJoin("/path/to", "env");
  }

  lemma StripLine(p: string)
    requires p != "" && !IsSpace(p[0]) && !IsSpace(p[|p| - 1])
    ensures Strip(p + "\n") == p
  {
    StripIs(p + "\n", 0, |p|);
    assert (p + "\n")[0..|p|] == p;
  }

  /** Darwin, in any case, selects the macOS layout: the project's directory,
      then the first directory inside it. */
  lemma HatchPathOnDarwin()
    ensures GetHatchEnvPath(Host("Darwin", "darwin", Some("testuser"), "test-project",
      Listed([DirEntry("test-project", true)]), ProbeRaised)) ==
      Ok("/Users/testuser/Library/Application Support/hatch/env/virtual/test-project/test-project")
  {
    DarwinLower();
    MacosFirstDir();
  }

  lemma DarwinLower()
    ensures Lower("Darwin") == "darwin"
  {
    assert Lower("Darwin")[0] == 'd';
    assert Lower("Darwin")[1..] == "arwin";
  }

  lemma MacosFirstDir()
    ensures GetMacosHatchPath(Some("testuser"), "test-project", Listed([DirEntry("test-project", true)])) ==
      Ok("/Users/testuser/Library/Application Support/hatch/env/virtual/test-project/test-project")
  {
    assert FirstDirIndex([DirEntry("test-project", true)]) == 0;
    MacosProjectPath();
  }

  lemma MacosProjectPath()
    ensures Paths.Join(Paths.Join(VirtualRoot("testuser"), "test-project"), "test-project") ==
      "/Users/testuser/Library/Application Support/hatch/env/virtual/test-project/test-project"
  {
    var root := "/Users/testuser/Library/Application Support/hatch/env/virtual";
    TestuserRoot();
    var dir := root + "/test-project";
    assert Paths.Join(root, "test-project") == dir by {
      assert root + "/" + "test-project" == dir;
    }
    assert Paths.Join(dir, "test-project") == dir + "/" + "test-project";
  }

  /** Without `USER`, the macOS layout cannot be located. */
  lemma HatchPathWithoutUser()
    ensures GetMacosHatchPath(None, "test-project", Missing) == Err(RuntimeError("Could not determine username"))
  {
  }

  /** Windows, where the probe raises: not supported, named by `sys.platform`. */
  lemma HatchPathOnWindows()
    ensures GetHatchEnvPath(Host("Windows", "win32", Some("u"), "p", Missing, ProbeRaised)) ==
      Err(NotImplementedError("Platform win32 not supported yet"))
  {
    assert Lower("Windows") != "darwin" by { assert Lower("Windows")[0] == 'w'; }
  }

  /** On macOS, when the project path cannot be listed (a regular file, an
      unreadable directory), the error `iterdir` raises escapes unchanged. */
  lemma HatchPathUnlistable(e: Error)
    ensures GetHatchEnvPath(Host("Darwin", "darwin", Some("testuser"), "test-project", Unlistable(e), ProbeRaised)) ==
      Err(e)
  {
    DarwinLower();
  }

  // ---------------------------------------------------------------------------
  // Literal-string steps used by the examples above: each states how one
  // concrete concatenation or character test of those examples comes out.
  // They are not examples of their own.

  lemma NestedParts()
    ensures "cd features/acceptance && behave" == "cd" + " " + "features/acceptance" + " " + "&&" + " behave"
    ensures "cd features/acceptance && behave"[26..32] == "behave"
  {
  }

  lemma NestedDir()
    ensures 'd' !in "features/acceptance" + " behave"
    ensures '&' !in "features/acceptance"
    ensures !IsSpace("features/acceptance"[0]) && !IsSpace("features/acceptance"[18])
  {
  }

  lemma TestsPattern()
    ensures "tests" + "/**/*" == "tests/**/*"
  {
  }

  lemma SrcPattern()
    ensures Pattern("src") == "src/**/*"
  {
  }

  lemma XPattern()
    ensures Pattern("x") == "x/**/*"
  {
  }

  lemma TestuserRoot()
    ensures VirtualRoot("testuser") == "/Users/testuser/Library/Application Support/hatch/env/virtual"
  {
    RootTail();
    var a, b, c, d := "/Users/testuser", "/Library", "/Application Support", "/hatch/env/virtual";
    assert "/Users/" + "testuser" == a;
    assert a + (b + c + d) == a + b + c + d;
    UserLibrary();
    UserSupport();
    UserVirtual();
  }

  lemma RootTail()
    ensures "/Library" + "/Application Support" + "/hatch/env/virtual" == "/Library/Application Support/hatch/env/virtual"
  {
    assert "/Library" + "/Application Support" == "/Library/Application Support";
  }

  lemma UserLibrary()
    ensures "/Users/testuser" + "/Library" == "/Users/testuser/Library"
  {
  }

  lemma UserSupport()
    ensures "/Users/testuser/Library" + "/Application Support" == "/Users/testuser/Library/Application Support"
  {
  }

  lemma UserVirtual()
    ensures "/Users/testuser/Library/Application Support" + "/hatch/env/virtual" ==
      "/Users/testuser/Library/Application Support/hatch/env/virtual"
  {
  }
}
