/** Concrete runs of the older updater. */
module SrcExamples {
  import opened Outcomes
  import PyDict
  import opened Manifest
  import opened SrcUpdateVscodeEnv

  /** Only the environment that declares a `vsc-mapping` is kept. */
  lemma CollectKeepsMapped()
    ensures Collect([("test", EnvConfig(Some("tests"), [], [])), ("lint", EnvConfig(None, [], []))]) ==
      [("test", "tests")]
  {
    var envs := [("test", EnvConfig(Some("tests"), [], [])), ("lint", EnvConfig(None, [], []))];
    assert envs[..1] == [envs[0]] && envs[..1][..0] == [];
    assert Collect(envs[..1]) == PyDict.Set([], "test", "tests");
  }

  /** A manifest without a `tool` section gives an empty table. */
  lemma NoToolSection()
    ensures Collect(HatchEnvs(Pyproject(None))) == []
  {
  }

  /** The older copy reads `sys.platform`, not `platform.system()`, and
      supports only the exact value `darwin`: Linux, for one, raises. */
  lemma OnlyDarwinSupported()
    ensures GetHatchEnvPath(Host("linux", Some("u"), "p")) ==
      Err(NotImplementedError("Platform linux not supported yet"))
  {
    assert "linux"[0] != "darwin"[0];
    assert "Platform " + "linux" + " not supported yet" == "Platform linux not supported yet";
  }
}
