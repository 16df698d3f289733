/**
 * The `Wfdbexec` object: the command it runs, its arguments, the command
 * vector `gen_exec_arguments` builds, the environment `setLauncher` gives the
 * child process, and `execToDoubleArray`, which ties them to the parse of the
 * process's output.
 *
 * Starting the process is not modelled: the launcher it would start is
 * returned, and the lines the process prints and its exit status are inputs.
 * The static fields are fields of the one object.
 */
module Exec {
  import opened Wrappers
  import opened Platform
  import opened TableSpec
  import opened TableExec

  /** What the `ProcessBuilder` is configured with. */
  datatype Launcher = Launcher(
    environment: map<string, string>,
    command: seq<string>,
    directory: Option<string>,
    redirectErrorStream: bool)

  /** The variable the dynamic loader searches: `DYLD_LIBRARY_PATH` on macOS, `LD_LIBRARY_PATH` elsewhere. */
  function LibraryPathVar(osName: string): string {
    if Contains(osName, "macosx") then "DYLD_LIBRARY_PATH" else "LD_LIBRARY_PATH"
  }

  /** The child's environment: the inherited map after the `put`s of `setLauncher`. */
  function LaunchEnvironment(inherited: map<string, string>, osName: string, nativeBin: string,
                             wfdbPath: Option<string>): map<string, string>
  {
    var m := inherited[LibraryPathVar(osName) := nativeBin]["WFDBNOSORT" := "1"];
    if wfdbPath.Some? then m["WFDB_PATH" := wfdbPath.value] else m
  }

  /**
   * The child's environment key by key: `WFDBNOSORT` is "1", the loader
   * variable is the native-binary directory, `WFDB_PATH` is set only when one
   * was given, and every other inherited variable is passed on unchanged.
   */
  lemma LaunchEnvironmentLookup(inherited: map<string, string>, osName: string, nativeBin: string,
                                wfdbPath: Option<string>)
    ensures var m := LaunchEnvironment(inherited, osName, nativeBin, wfdbPath);
      && m["WFDBNOSORT"] == "1"
      && m[LibraryPathVar(osName)] == nativeBin
      && (wfdbPath.Some? ==> m["WFDB_PATH"] == wfdbPath.value)
      && (wfdbPath.None? ==> ("WFDB_PATH" in m <==> "WFDB_PATH" in inherited))
      && (wfdbPath.None? && "WFDB_PATH" in inherited ==> m["WFDB_PATH"] == inherited["WFDB_PATH"])
      && (forall k :: k in m <==> k in inherited || k == "WFDBNOSORT" || k == LibraryPathVar(osName)
                                  || (k == "WFDB_PATH" && wfdbPath.Some?))
      && forall k :: k in inherited && k != "WFDBNOSORT" && k != LibraryPathVar(osName) && k != "WFDB_PATH" ==>
        m[k] == inherited[k]
  {
  }

  /** On macOS only `DYLD_LIBRARY_PATH` is set; elsewhere only `LD_LIBRARY_PATH`, and the other is left as inherited. */
  lemma LoaderVariableByPlatform(inherited: map<string, string>, osName: string, nativeBin: string,
                                 wfdbPath: Option<string>)
    ensures var m := LaunchEnvironment(inherited, osName, nativeBin, wfdbPath);
      && (Contains(osName, "macosx") ==>
        m["DYLD_LIBRARY_PATH"] == nativeBin
        && ("LD_LIBRARY_PATH" in m <==> "LD_LIBRARY_PATH" in inherited))
      && (!Contains(osName, "macosx") ==>
        m["LD_LIBRARY_PATH"] == nativeBin
        && ("DYLD_LIBRARY_PATH" in m <==> "DYLD_LIBRARY_PATH" in inherited))
  {
    LaunchEnvironmentLookup(inherited, osName, nativeBin, wfdbPath);
  }

  class Wfdbexec {
    var commandName: string
    /** `arguments`, `None` while it is null. */
    var arguments: Option<seq<string>>
    var commandInput: seq<string>
    var env: map<string, string>
    /** The static `WFDB_PATH`, `None` while it is null. */
    var wfdbPath: Option<string>
    /** The static `EXECUTING_DIR`, `None` while it is null. */
    var executingDir: Option<string>
    /** The static fields `set_environment` assigns. */
    var platform: Environment

    /** Lines 81-85: remember the command and compute the platform fields. */
    constructor(commandName: string, props: SystemProperties)
      ensures this.commandName == commandName
      ensures platform == SetEnvironment(props)
      ensures arguments.None? && commandInput == [] && env == map[]
      ensures wfdbPath.None? && executingDir.None?
    {
      this.commandName := commandName;
      platform := SetEnvironment(props);
      arguments := None;
      commandInput := [];
      env := map[];
      wfdbPath := None;
      executingDir := None;
    }

    /** Lines 87-89. */
    method SetArguments(args: Option<seq<string>>)
      modifies this
      ensures arguments == args
      ensures commandName == old(commandName) && commandInput == old(commandInput) && env == old(env)
      ensures wfdbPath == old(wfdbPath) && executingDir == old(executingDir) && platform == old(platform)
    {
      arguments := args;
    }

    /** Lines 91-93. */
    method SetExecName(execName: string)
      modifies this
      ensures commandName == execName
      ensures arguments == old(arguments) && commandInput == old(commandInput) && env == old(env)
      ensures wfdbPath == old(wfdbPath) && executingDir == old(executingDir) && platform == old(platform)
    {
      commandName := execName;
    }

    /** Lines 95-99. */
    method SetExecutingDir(dir: Option<string>)
      modifies this
      ensures executingDir == dir
      ensures commandName == old(commandName) && arguments == old(arguments) && commandInput == old(commandInput)
      ensures env == old(env) && wfdbPath == old(wfdbPath) && platform == old(platform)
    {
      executingDir := dir;
    }

    /** Lines 299-303. */
    method SetWfdbPath(path: Option<string>)
      modifies this
      ensures wfdbPath == path
      ensures commandName == old(commandName) && arguments == old(arguments) && commandInput == old(commandInput)
      ensures env == old(env) && executingDir == old(executingDir) && platform == old(platform)
    {
      wfdbPath := path;
    }

    /**
     * Lines 100-107: the command vector is the binary's full path followed by
     * the arguments in order, and nothing else; null arguments give the path
     * alone.
     */
    method GenExecArguments()
      modifies this
      ensures var args := if arguments.Some? then arguments.value else [];
        && |commandInput| == 1 + |args|
        && commandInput[0] == platform.nativeBin + commandName
        && forall i :: 0 <= i < |args| ==> commandInput[i + 1] == args[i]
      ensures commandName == old(commandName) && arguments == old(arguments) && env == old(env)
      ensures wfdbPath == old(wfdbPath) && executingDir == old(executingDir) && platform == old(platform)
    {
      var v := [platform.nativeBin + commandName];
      if arguments.Some? {
        var args := arguments.value;
        for k := 0 to |args|
          invariant |v| == 1 + k
          invariant v[0] == platform.nativeBin + commandName
          invariant forall i :: 0 <= i < k ==> v[i + 1] == args[i]
        {
          v := v + [args[k]];
        }
      }
      commandInput := v;
    }

    /**
     * Lines 305-327: the environment the launcher starts from is
     * `inherited`; after the `put`s it is `LaunchEnvironment`, and the
     * launcher runs the command vector in the executing directory with
     * standard error merged into standard output.
     */
    method SetLauncher(inherited: map<string, string>) returns (launcher: Launcher)
      modifies this
      ensures env == LaunchEnvironment(inherited, platform.osName, platform.nativeBin, wfdbPath)
      ensures launcher == Launcher(env, commandInput, executingDir, true)
      ensures commandName == old(commandName) && arguments == old(arguments) && commandInput == old(commandInput)
      ensures wfdbPath == old(wfdbPath) && executingDir == old(executingDir) && platform == old(platform)
    {
      env := inherited;
      if Contains(platform.osName, "macosx") {
        env := env["DYLD_LIBRARY_PATH" := platform.nativeBin];
      } else {
        env := env["LD_LIBRARY_PATH" := platform.nativeBin];
      }
      env := env["WFDBNOSORT" := "1"];
      if wfdbPath.Some? {
        env := env["WFDB_PATH" := wfdbPath.value];
      }
      env := env["WFDBNOSORT" := "1"];
      launcher := Launcher(env, commandInput, executingDir, true);
    }

    /**
     * Lines 187-297: set the arguments, build the command vector and the
     * launcher, then parse the `lines` the launched tool prints and its
     * `exitStatus` into a fresh table, or the exception `ParseTable` names.
     */
    method ExecToDoubleArray(args: Option<seq<string>>, inherited: map<string, string>,
                             parse: string -> Option<Cell>, lines: seq<string>, exitStatus: int)
      returns (r: Result<array2<Cell>, ParseError>, launcher: Launcher)
      modifies this
      ensures arguments == args
      ensures commandName == old(commandName) && platform == old(platform)
      ensures wfdbPath == old(wfdbPath) && executingDir == old(executingDir)
      ensures |commandInput| == 1 + (if args.Some? then |args.value| else 0)
      ensures commandInput[0] == platform.nativeBin + commandName
      ensures args.Some? ==> forall i :: 0 <= i < |args.value| ==> commandInput[i + 1] == args.value[i]
      ensures env == LaunchEnvironment(inherited, platform.osName, platform.nativeBin, wfdbPath)
      ensures launcher == Launcher(env, commandInput, executingDir, true)
      ensures ParseTable(parse, lines, exitStatus).Err? ==> r == Err(ParseTable(parse, lines, exitStatus).error)
      ensures ParseTable(parse, lines, exitStatus).Ok? ==>
        r.Ok? && fresh(r.value) && Holds(r.value, ParseTable(parse, lines, exitStatus).value)
    {
      SetArguments(args);
      GenExecArguments();
      launcher := SetLauncher(inherited);
      r := ParseOutput(parse, lines, exitStatus);
    }
  }
}
