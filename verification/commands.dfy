/**
 * The suggested shell commands the tracker shows and copies to the clipboard:
 * `./scenario-manager.sh run <name> inject` on start and
 * `./scenario-manager.sh status <name>` on a status request.
 */
module Commands {
  import opened Wrappers

  const RunPrefix: string := "./scenario-manager.sh run "
  const RunSuffix: string := " inject"
  const StatusPrefix: string := "./scenario-manager.sh status "

  /** The start command: the run prefix, then the scenario name, then the inject suffix. */
  function RunCommand(name: string): (cmd: string)
    ensures |cmd| == |RunPrefix| + |name| + |RunSuffix|
    ensures cmd[..|RunPrefix|] == RunPrefix
    ensures cmd[|RunPrefix|..|RunPrefix| + |name|] == name
    ensures cmd[|RunPrefix| + |name|..] == RunSuffix
  {
    RunPrefix + name + RunSuffix
  }

  /** The status command: the status prefix, then the scenario name. */
  function StatusCommand(name: string): (cmd: string)
    ensures |cmd| == |StatusPrefix| + |name|
    ensures cmd[..|StatusPrefix|] == StatusPrefix
    ensures cmd[|StatusPrefix|..] == name
  {
    StatusPrefix + name
  }

  /** Recovers the scenario name from a run command, if it is one. */
  function ParseRunCommand(cmd: string): (r: Option<string>)
    ensures r.Some? ==> cmd == RunCommand(r.value)
  {
    if |RunPrefix| + |RunSuffix| <= |cmd|
       && cmd[..|RunPrefix|] == RunPrefix
       && cmd[|cmd| - |RunSuffix|..] == RunSuffix
    then
      var name := cmd[|RunPrefix|..|cmd| - |RunSuffix|];
      assert cmd == cmd[..|RunPrefix|] + name + cmd[|cmd| - |RunSuffix|..];
      Some(name)
    else None
  }

  /** Recovers the scenario name from a status command, if it is one. */
  function ParseStatusCommand(cmd: string): (r: Option<string>)
    ensures r.Some? ==> cmd == StatusCommand(r.value)
  {
    if |StatusPrefix| <= |cmd| && cmd[..|StatusPrefix|] == StatusPrefix then
      var name := cmd[|StatusPrefix|..];
      assert cmd == cmd[..|StatusPrefix|] + name;
      Some(name)
    else None
  }

  /** The run command names its scenario unambiguously. */
  lemma RunCommandRoundTrip(name: string)
    ensures ParseRunCommand(RunCommand(name)) == Some(name)
  {
    var cmd := RunCommand(name);
    assert cmd[..|RunPrefix|] == RunPrefix;
    assert cmd[|cmd| - |RunSuffix|..] == RunSuffix;
    assert cmd[|RunPrefix|..|cmd| - |RunSuffix|] == name;
  }

  /** The status command names its scenario unambiguously. */
  lemma StatusCommandRoundTrip(name: string)
    ensures ParseStatusCommand(StatusCommand(name)) == Some(name)
  {
    var cmd := StatusCommand(name);
    assert cmd[..|StatusPrefix|] == StatusPrefix;
    assert cmd[|StatusPrefix|..] == name;
  }

  /** Distinct scenarios get distinct commands. */
  lemma CommandsInjective(a: string, b: string)
    requires a != b
    ensures RunCommand(a) != RunCommand(b)
    ensures StatusCommand(a) != StatusCommand(b)
  {
    RunCommandRoundTrip(a);
    RunCommandRoundTrip(b);
    StatusCommandRoundTrip(a);
    StatusCommandRoundTrip(b);
  }
}
