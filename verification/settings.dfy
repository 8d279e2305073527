/** Where the settings file is looked for (`iniPath`) and where a new one is
    saved (`iniFullPath`). The file system is a set of existing paths and
    `path.join` is a function given by the caller; the environment variables,
    the executable's directory and the module's directory are inputs. */
module Settings {
  import opened Options

  /** What the process sees of its surroundings. `installDirParts` is the
      executable's directory split at backslashes and `moduleDirParts` the
      module's directory split at the platform separator. */
  datatype Environment = Environment(
    platform: string,
    kimaiConfig: Option<string>,
    appdata: Option<string>,
    execDir: string,
    moduleDir: string,
    installDirParts: seq<string>,
    moduleDirParts: seq<string>,
    existing: set<string>)

  /** An environment variable that is set to a non-empty string. */
  predicate IsSet(v: Option<string>) {
    v.Some? && v.value != ""
  }

  /** The `iniRoot` directories in insertion order: next to the executable
      (pkg), next to the module (npm), and under `appdata` (Windows
      installer) when that variable is set. */
  function IniRoots(env: Environment, join: (string, string) -> string): (roots: seq<string>)
    ensures |roots| == (if IsSet(env.appdata) then 3 else 2)
    ensures roots[0] == env.execDir && roots[1] == env.moduleDir
    ensures IsSet(env.appdata) ==> roots[2] == join(env.appdata.value, "/kimai2-cmd")
  {
    [env.execDir, env.moduleDir] + (if IsSet(env.appdata) then [join(env.appdata.value, "/kimai2-cmd")] else [])
  }

  /** The index of the first candidate that exists. */
  function FirstExisting(candidates: seq<string>, existing: set<string>): (r: Option<nat>)
    ensures r.Some? ==> r.value < |candidates| && candidates[r.value] in existing
    ensures r.Some? ==> forall k :: 0 <= k < r.value ==> candidates[k] !in existing
    ensures r.None? <==> forall k :: 0 <= k < |candidates| ==> candidates[k] !in existing
    decreases |candidates|
  {
    if candidates == [] then None
    else if candidates[0] in existing then Some(0)
    else
      var r := FirstExisting(candidates[1..], existing);
      assert forall k :: 1 <= k < |candidates| ==> candidates[k] == candidates[1..][k - 1];
      if r.None? then None else Some(r.value + 1)
  }

  /** The settings file each root offers. */
  function Candidates(env: Environment, join: (string, string) -> string): (c: seq<string>)
    ensures |c| == |IniRoots(env, join)|
    ensures forall i :: 0 <= i < |c| ==> c[i] == join(IniRoots(env, join)[i], "/settings.ini")
  {
    var roots := IniRoots(env, join);
    seq(|roots|, i requires 0 <= i < |roots| => join(roots[i], "/settings.ini"))
  }

  /** The `KIMAI_CONFIG` path is taken when it is set and the file exists. */
  predicate ConfigExists(env: Environment) {
    IsSet(env.kimaiConfig) && env.kimaiConfig.value in env.existing
  }

  /** `iniPath`: the `KIMAI_CONFIG` path if that file exists; otherwise
      `settings.ini` in the first root where it exists; otherwise nothing
      (`false`). */
  function IniPath(env: Environment, join: (string, string) -> string): (r: Option<string>)
    ensures r.Some? ==> r.value in env.existing
    ensures ConfigExists(env) ==> r == Some(env.kimaiConfig.value)
    ensures !ConfigExists(env) && r.Some? ==>
              exists i :: && 0 <= i < |IniRoots(env, join)|
                          && r.value == join(IniRoots(env, join)[i], "/settings.ini")
                          && forall k :: 0 <= k < i ==> join(IniRoots(env, join)[k], "/settings.ini") !in env.existing
    ensures r.None? <==>
              && !ConfigExists(env)
              && forall i :: 0 <= i < |IniRoots(env, join)| ==> join(IniRoots(env, join)[i], "/settings.ini") !in env.existing
  {
    if ConfigExists(env) then Some(env.kimaiConfig.value)
    else
      var c := Candidates(env, join);
      var r := FirstExisting(c, env.existing);
      if r.None? then None else Some(c[r.value])
  }

  /** Only the `KIMAI_CONFIG` path and the candidates are ever looked at:
      creating any other file does not change the outcome. */
  lemma IniPathIgnoresOtherFiles(env: Environment, join: (string, string) -> string, p: string)
    requires !(IsSet(env.kimaiConfig) && p == env.kimaiConfig.value)
    requires forall i :: 0 <= i < |IniRoots(env, join)| ==> p != join(IniRoots(env, join)[i], "/settings.ini")
    ensures IniPath(env.(existing := env.existing + {p}), join) == IniPath(env, join)
  {
    var env' := env.(existing := env.existing + {p});
    assert IniRoots(env', join) == IniRoots(env, join);
    var c := Candidates(env, join);
    assert Candidates(env', join) == c;
    assert forall k :: 0 <= k < |c| ==> (c[k] in env'.existing <==> c[k] in env.existing);
    FirstExistingAgrees(c, env.existing, env'.existing);
  }

  /** Two file systems that agree on every candidate pick the same one. */
  lemma {:induction false} FirstExistingAgrees(c: seq<string>, e1: set<string>, e2: set<string>)
    requires forall k :: 0 <= k < |c| ==> (c[k] in e1 <==> c[k] in e2)
    ensures FirstExisting(c, e1) == FirstExisting(c, e2)
    decreases |c|
  {
    if c != [] {
      assert forall k :: 0 <= k < |c[1..]| ==> c[1..][k] == c[k + 1];
      FirstExistingAgrees(c[1..], e1, e2);
    }
  }

  datatype Install = WindowsInstaller | Pkg | Npm

  /** The installation type `iniFullPath` decides on: a Windows installer
      puts the executable under `Program Files\kimai2-cmd`; a packaged
      executable runs from a `snapshot` directory in one of the first two
      places of the module path; anything else is an npm installation. */
  function InstallKind(env: Environment): (kind: Install)
    ensures kind == WindowsInstaller <==>
              && env.platform == "win32"
              && |env.installDirParts| >= 2
              && env.installDirParts[|env.installDirParts| - 2] == "Program Files"
              && env.installDirParts[|env.installDirParts| - 1] == "kimai2-cmd"
    ensures kind == Pkg <==>
              && kind != WindowsInstaller
              && exists k :: 0 <= k < 2 && k < |env.moduleDirParts| && env.moduleDirParts[k] == "snapshot"
  {
    var n := |env.installDirParts|;
    if env.platform == "win32" && n >= 2
       && env.installDirParts[n - 2] == "Program Files" && env.installDirParts[n - 1] == "kimai2-cmd" then
      WindowsInstaller
    else if (|env.moduleDirParts| > 0 && env.moduleDirParts[0] == "snapshot")
            || (|env.moduleDirParts| > 1 && env.moduleDirParts[1] == "snapshot") then
      Pkg
    else
      Npm
  }

  /** `iniFullPath`: `settings.ini` in the root of the installation type.
      Under a Windows installer without `appdata` there is no such root and
      joining with the missing value throws, which is `None`. */
  function IniFullPath(env: Environment, join: (string, string) -> string): (r: Option<string>)
    ensures r.None? <==> InstallKind(env) == WindowsInstaller && !IsSet(env.appdata)
    ensures r.Some? ==> exists i :: 0 <= i < |IniRoots(env, join)| && r.value == join(IniRoots(env, join)[i], "settings.ini")
    ensures r.Some? && InstallKind(env) == WindowsInstaller ==>
              |IniRoots(env, join)| == 3 && r.value == join(IniRoots(env, join)[2], "settings.ini")
    ensures r.Some? && InstallKind(env) == Pkg ==> r.value == join(env.execDir, "settings.ini")
    ensures r.Some? && InstallKind(env) == Npm ==> r.value == join(env.moduleDir, "settings.ini")
  {
    var roots := IniRoots(env, join);
    match InstallKind(env)
    case WindowsInstaller => if IsSet(env.appdata) then Some(join(roots[2], "settings.ini")) else None
    case Pkg => Some(join(roots[0], "settings.ini"))
    case Npm => Some(join(roots[1], "settings.ini"))
  }

  /** `path.join` treats "settings.ini" and "/settings.ini" under a root alike. */
  predicate JoinNormalises(env: Environment, join: (string, string) -> string) {
    forall i :: 0 <= i < |IniRoots(env, join)| ==>
      join(IniRoots(env, join)[i], "settings.ini") == join(IniRoots(env, join)[i], "/settings.ini")
  }

  /** First run: no settings file was found, the answers are saved to the
      full path, and looking the settings up again finds the saved file. */
  lemma SavedSettingsAreFound(env: Environment, join: (string, string) -> string)
    requires JoinNormalises(env, join)
    requires IniPath(env, join).None? && IniFullPath(env, join).Some?
    ensures var saved := IniFullPath(env, join).value;
            IniPath(env.(existing := env.existing + {saved}), join) == Some(saved)
  {
    var saved := IniFullPath(env, join).value;
    var env' := env.(existing := env.existing + {saved});
    var roots := IniRoots(env, join);
    assert IniRoots(env', join) == roots;
    var i :| 0 <= i < |roots| && saved == join(roots[i], "settings.ini");
    assert join(roots[i], "/settings.ini") in env'.existing;
    var r := IniPath(env', join);
    if !ConfigExists(env') {
      var j :| && 0 <= j < |roots|
               && r.value == join(roots[j], "/settings.ini")
               && forall k :: 0 <= k < j ==> join(roots[k], "/settings.ini") !in env'.existing;
      assert join(roots[j], "/settings.ini") !in env.existing;
    }
  }
}
