/**
 * Where the sync writes: `.claude/agents` under the home directory (global install) or under the
 * working directory (local install), created on demand, and the single-file save into it.
 * The environment variables and the working directory are parameters instead of ambient state.
 */
module Destination {
  import opened Wrappers
  import opened FileSystem

  /** `process.env.HOME`, `process.env.USERPROFILE` (`None` when unset) and `process.cwd()`. */
  datatype Env = Env(home: Option<string>, userProfile: Option<string>, cwd: string)

  const ConfigDir: string := ".claude"
  const AgentsSubdir: string := "agents"
  /** The `TypeError` `path.join` throws when handed `undefined`. */
  const UndefinedPathError: string := "The \"path\" argument must be of type string. Received undefined"

  /** `process.env.HOME || process.env.USERPROFILE`: an unset or empty `HOME` falls through. */
  function HomeDir(env: Env): Option<string>
  {
    if env.home.Some? && env.home.value != "" then env.home else env.userProfile
  }

  /** The agents directory `ensureAgentsDirectory` settles on, or the error `path.join` throws. */
  function AgentsDirPath(isGlobal: bool, env: Env): (r: Result<Path, string>)
    ensures r.Success? ==> |r.value| == 3 && r.value[1..] == [ConfigDir, AgentsSubdir]
    ensures !isGlobal ==> r == Success([env.cwd, ConfigDir, AgentsSubdir])
    ensures isGlobal && env.home.Some? && env.home.value != "" ==> r == Success([env.home.value, ConfigDir, AgentsSubdir])
    ensures isGlobal && (env.home.None? || env.home == Some("")) && env.userProfile.Some? ==>
              r == Success([env.userProfile.value, ConfigDir, AgentsSubdir])
    ensures r.Failure? <==> isGlobal && (env.home.None? || env.home == Some("")) && env.userProfile.None?
    ensures r.Failure? ==> r.error == UndefinedPathError
  {
    var base := if isGlobal then HomeDir(env) else Some(env.cwd);
    match base
    case None => Failure(UndefinedPathError)
    case Some(b) => Success([b, ConfigDir, AgentsSubdir])
  }

  /** The outcome of `ensureAgentsDirectory` and the directories it leaves behind. */
  datatype Provisioned = Provisioned(outcome: Result<Path, string>, dirs: map<Path, map<string, string>>)

  /**
   * `ensureAgentsDirectory` on a disk with directories `dirs` that refuses the paths in `failures`:
   * an existing directory is used as it is, a missing one is created with its ancestors.
   */
  function Provision(isGlobal: bool, env: Env, dirs: map<Path, map<string, string>>, failures: map<Path, string>): (r: Provisioned)
    ensures r.outcome.Success? ==> r.outcome == AgentsDirPath(isGlobal, env) && r.outcome.value in r.dirs
    ensures AgentsDirPath(isGlobal, env).Failure? ==> r == Provisioned(AgentsDirPath(isGlobal, env), dirs)
    ensures AgentsDirPath(isGlobal, env).Success? && AgentsDirPath(isGlobal, env).value in dirs ==>
              r == Provisioned(AgentsDirPath(isGlobal, env), dirs)
    ensures r.outcome.Failure? <==>
              AgentsDirPath(isGlobal, env).Failure? ||
              (AgentsDirPath(isGlobal, env).value !in dirs && AgentsDirPath(isGlobal, env).value in failures)
    ensures AgentsDirPath(isGlobal, env).Success? && AgentsDirPath(isGlobal, env).value !in dirs &&
            AgentsDirPath(isGlobal, env).value in failures ==>
              r.outcome == Failure(failures[AgentsDirPath(isGlobal, env).value])
    ensures AgentsDirPath(isGlobal, env).Success? && AgentsDirPath(isGlobal, env).value !in dirs &&
            AgentsDirPath(isGlobal, env).value !in failures ==>
              Prefixes(AgentsDirPath(isGlobal, env).value) <= r.dirs.Keys
    ensures r.outcome.Failure? ==> r.dirs == dirs
    ensures forall q :: q in dirs ==> q in r.dirs && r.dirs[q] == dirs[q]
    ensures forall q :: q in r.dirs && q !in dirs ==>
              r.dirs[q] == map[] && AgentsDirPath(isGlobal, env).Success? && q in Prefixes(AgentsDirPath(isGlobal, env).value)
  {
    match AgentsDirPath(isGlobal, env)
    case Failure(e) => Provisioned(Failure(e), dirs)
    case Success(p) =>
      if p in dirs then Provisioned(Success(p), dirs)
      else if p in failures then Provisioned(Failure(failures[p]), dirs)
      else Provisioned(Success(p), MakeDirs(dirs, p))
  }

  /** `ensureAgentsDirectory(isGlobal)` */
  method EnsureAgentsDirectory(disk: Disk, isGlobal: bool, env: Env) returns (r: Result<Path, string>)
    modifies disk
    ensures Provisioned(r, disk.dirs) == Provision(isGlobal, env, old(disk.dirs), disk.failures)
  {
    var agentsDir := AgentsDirPath(isGlobal, env);
    if agentsDir.Failure? {
      return Failure(agentsDir.error);
    }
    var found := disk.Access(agentsDir.value);
    if !found {
      var error := disk.MakeDirectory(agentsDir.value);
      if error.Some? {
        return Failure(error.value);
      }
    }
    return Success(agentsDir.value);
  }

  /** `saveFile(agentsDir, filename, content)`: writes the content verbatim and returns the file's path. */
  method SaveFile(disk: Disk, agentsDir: Path, filename: string, content: string) returns (r: Result<Path, string>)
    modifies disk
    ensures r.Failure? <==> WriteError(old(disk.dirs).Keys, disk.failures, agentsDir, filename).Some?
    ensures r.Failure? ==> r.error == WriteError(old(disk.dirs).Keys, disk.failures, agentsDir, filename).value
    ensures r.Failure? ==> disk.dirs == old(disk.dirs)
    ensures r.Success? ==> r.value == agentsDir + [filename] && agentsDir in old(disk.dirs)
    ensures r.Success? ==> disk.dirs == old(disk.dirs)[agentsDir := old(disk.dirs)[agentsDir][filename := content]]
  {
    var filePath := agentsDir + [filename];
    var error := disk.WriteFile(agentsDir, filename, content);
    if error.Some? {
      return Failure(error.value);
    }
    return Success(filePath);
  }
}
