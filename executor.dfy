/**
 * The batch execution engine of codesubmit/executor.py: which command runs a
 * source file, which bytes it reads on stdin, how the outcome of the child
 * process becomes an ExecutionResult, and the loop that yields one entry per
 * file.
 *
 * The child process itself, the clock, the file system, the process
 * environment and two library routines (lenient UTF-8 decoding and shell
 * quoting) are outside the model; they enter as parameters.
 */
module Executor {
  import opened Wrappers
  import opened Utf8

  // ---------------------------------------------------------------- inputs

  /** A file found by the scanner: absolute path, path relative to the scan root, language. */
  datatype SourceFile = SourceFile(path: string, relPath: string, language: string)

  /**
   * The run configuration. `stdinInput` and `inputFile` are "" where the
   * configuration leaves them unset (None and "" are treated alike).
   */
  datatype Config = Config(
    executionEnabled: bool,
    timeout: real,
    stdinInput: string,
    inputFile: string)

  /** Library routines the engine calls but whose internals are not modelled. */
  datatype Host = Host(
    pythonExecutable: string,                // sys.executable
    decode: seq<byte> -> string,             // bytes.decode('utf-8', errors='replace')
    shellJoin: seq<string> -> string)        // shlex.join

  /** The files that exist, with their contents. */
  type FileSystem = map<string, seq<byte>>

  /** The ambient process state: working directory, environment variables, `os.name`. */
  datatype Ambient = Ambient(cwd: string, environ: map<string, string>, osName: string)

  /** The ambient state as it reads when the file at a given position of the batch is executed. */
  type Environment = nat -> Ambient

  /** One child-process launch: the argument list, the stdin bytes and the timeout. */
  datatype Launch = Launch(command: seq<string>, input: seq<byte>, timeout: real)

  /**
   * How a launched child ended: it ran to completion (any exit code), the
   * timeout expired (with whatever output had been captured, if any), or the
   * launch raised some other exception, carrying its message.
   */
  datatype Outcome =
    | Completed(stdout: seq<byte>, stderr: seq<byte>, returnCode: int)
    | TimedOut(partialStdout: Option<seq<byte>>, partialStderr: Option<seq<byte>>)
    | Failed(message: string)

  /** What the world answers for one launch: its outcome and the elapsed wall-clock time. */
  datatype Run = Run(outcome: Outcome, elapsed: real)

  /** The world: the run that the launch made for the file at a given position of the batch yields. */
  type World = (nat, Launch) -> Run

  // ---------------------------------------------------------------- results

  /** The record built once per executed file. */
  datatype ExecutionResult = ExecutionResult(
    stdout: string,
    stderr: string,
    exitCode: int,
    duration: real,
    command: string,
    context: map<string, string>,
    timedOut: bool)

  /** A batch entry: the file and its result, None when it was not executed. */
  type Entry = (SourceFile, Option<ExecutionResult>)

  const TimeoutMessage: string := "Timeout Expired"
  const FailurePrefix: string := "Execution Failed: "

  /** The exit code that marks a timeout or a failed launch. */
  const AbnormalExit: int := -1

  // ---------------------------------------------------------------- command resolution

  /**
   * The argument list that runs a file: the Python interpreter or the Java
   * single-file launcher followed by the path; the empty list means "no runner".
   */
  function RunnerCommand(filePath: string, language: string, pythonExecutable: string): (cmd: seq<string>)
    ensures cmd == [] <==> language != "Python" && language != "Java"
    ensures cmd != [] ==> |cmd| == 2 && cmd[1] == filePath
    ensures language == "Python" ==> cmd[0] == pythonExecutable
    ensures language == "Java" ==> cmd[0] == "java"
  {
    if language == "Python" then
      [pythonExecutable, filePath]
    else if language == "Java" then
      ["java", filePath]
    else
      []
  }

  predicate Runnable(file: SourceFile, host: Host)
  {
    RunnerCommand(file.path, file.language, host.pythonExecutable) != []
  }

  /** Whether a file name is runnable depends only on its language, never on its path. */
  lemma RunnableByLanguage(file: SourceFile, other: SourceFile, host: Host)
    requires file.language == other.language
    ensures Runnable(file, host) == Runnable(other, host)
    ensures |RunnerCommand(file.path, file.language, host.pythonExecutable)|
         == |RunnerCommand(other.path, other.language, host.pythonExecutable)|
  {
  }

  // ---------------------------------------------------------------- stdin selection

  /**
   * The bytes every child of the batch reads on stdin: the input file's
   * contents when it is set and exists, otherwise the UTF-8 of the stdin
   * text (nothing when that text is unset).
   */
  function StdinBytes(config: Config, fs: FileSystem): (bs: seq<byte>)
    ensures config.inputFile != "" && config.inputFile in fs ==> bs == fs[config.inputFile]
    ensures !(config.inputFile != "" && config.inputFile in fs) ==> bs == Encode(config.stdinInput)
  {
    if config.inputFile != "" && config.inputFile in fs then fs[config.inputFile]
    else if config.stdinInput != "" then Encode(config.stdinInput)
    else []
  }

  /**
   * Stdin is empty exactly when its chosen source is: an empty input file,
   * or, with no usable input file, an empty or unset text.
   */
  lemma StdinPrecedence(config: Config, fs: FileSystem)
    ensures StdinBytes(config, fs) == [] <==>
              if config.inputFile != "" && config.inputFile in fs then fs[config.inputFile] == []
              else config.stdinInput == []
  {
  }

  /** An ASCII stdin text reaches the child byte for byte. */
  lemma StdinAsciiText(config: Config, fs: FileSystem)
    requires config.inputFile == "" || config.inputFile !in fs
    requires forall k :: 0 <= k < |config.stdinInput| ==> config.stdinInput[k] as int < 0x80
    ensures |StdinBytes(config, fs)| == |config.stdinInput|
    ensures forall k :: 0 <= k < |config.stdinInput| ==> StdinBytes(config, fs)[k] as int == config.stdinInput[k] as int
  {
    EncodeAscii(config.stdinInput);
  }

  // ---------------------------------------------------------------- context

  /** The environment snapshot attached to a result. */
  function Context(env: Ambient): (ctx: map<string, string>)
    ensures ctx.Keys == {"cwd", "env_user", "env_os"}
    ensures ctx["cwd"] == env.cwd && ctx["env_os"] == env.osName
    ensures "USERNAME" in env.environ ==> ctx["env_user"] == env.environ["USERNAME"]
    ensures "USERNAME" !in env.environ ==> ctx["env_user"] == "unknown"
  {
    map["cwd" := env.cwd,
        "env_user" := if "USERNAME" in env.environ then env.environ["USERNAME"] else "unknown",
        "env_os" := env.osName]
  }

  // ---------------------------------------------------------------- result assembly

  /** Python truthiness of captured bytes: present and non-empty. */
  predicate Captured(b: Option<seq<byte>>)
  {
    b.Some? && b.value != []
  }

  /** The ExecutionResult built from one run of the command `cmd`. */
  function Assemble(run: Run, cmd: seq<string>, context: map<string, string>, host: Host): (r: ExecutionResult)
    ensures r.command == host.shellJoin(cmd) && r.context == context && r.duration == run.elapsed
    ensures r.timedOut <==> run.outcome.TimedOut?
    ensures r.exitCode == if run.outcome.Completed? then run.outcome.returnCode else AbnormalExit
  {
    var command := host.shellJoin(cmd);
    match run.outcome
    case Completed(out, err, code) =>
      ExecutionResult(host.decode(out), host.decode(err), code, run.elapsed, command, context, false)
    case TimedOut(out, err) =>
      ExecutionResult(
        if Captured(out) then host.decode(out.value) else "",
        if Captured(err) then host.decode(err.value) else TimeoutMessage,
        AbnormalExit, run.elapsed, command, context, true)
    case Failed(msg) =>
      ExecutionResult("", FailurePrefix + msg, AbnormalExit, run.elapsed, command, context, false)
  }

  /** A completed child's streams are its decoded output and its exit code is kept, zero or not. */
  lemma AssembleCompleted(run: Run, cmd: seq<string>, context: map<string, string>, host: Host)
    requires run.outcome.Completed?
    ensures var r := Assemble(run, cmd, context, host);
      r.stdout == host.decode(run.outcome.stdout) && r.stderr == host.decode(run.outcome.stderr)
      && r.exitCode == run.outcome.returnCode && !r.timedOut
  {
  }

  /** A timed-out child keeps what it had written; an empty or missing stderr reads "Timeout Expired". */
  lemma AssembleTimedOut(run: Run, cmd: seq<string>, context: map<string, string>, host: Host)
    requires run.outcome.TimedOut?
    ensures var r := Assemble(run, cmd, context, host);
      r.exitCode == AbnormalExit && r.timedOut
      && (Captured(run.outcome.partialStdout) ==> r.stdout == host.decode(run.outcome.partialStdout.value))
      && (!Captured(run.outcome.partialStdout) ==> r.stdout == "")
      && (Captured(run.outcome.partialStderr) ==> r.stderr == host.decode(run.outcome.partialStderr.value))
      && (!Captured(run.outcome.partialStderr) ==> r.stderr == TimeoutMessage)
  {
  }

  /** A failed launch captures nothing and reports the exception's message after a fixed prefix. */
  lemma AssembleFailed(run: Run, cmd: seq<string>, context: map<string, string>, host: Host)
    requires run.outcome.Failed?
    ensures var r := Assemble(run, cmd, context, host);
      r.stdout == "" && r.exitCode == AbnormalExit && !r.timedOut
      && |r.stderr| == |FailurePrefix| + |run.outcome.message|
      && r.stderr[..|FailurePrefix|] == FailurePrefix
      && r.stderr[|FailurePrefix|..] == run.outcome.message
  {
  }

  /**
   * What a reader of a result can tell about the outcome: the timeout flag is
   * exact, an exit code other than -1 is a real exit code, and -1 without the
   * flag means a failed launch or a child that itself ended with -1.
   */
  lemma ResultRevealsOutcome(run: Run, cmd: seq<string>, context: map<string, string>, host: Host)
    ensures var r := Assemble(run, cmd, context, host);
      (r.timedOut <==> run.outcome.TimedOut?)
      && (r.exitCode != AbnormalExit ==> run.outcome.Completed? && run.outcome.returnCode == r.exitCode)
      && (r.exitCode == AbnormalExit && !r.timedOut ==>
            run.outcome.Failed? || (run.outcome.Completed? && run.outcome.returnCode == AbnormalExit))
  {
  }

  // ---------------------------------------------------------------- serialisation

  /** The values a serialised result holds. */
  datatype Value =
    | Str(s: string)
    | Int(i: int)
    | Real(r: real)
    | Bool(b: bool)
    | Dict(d: map<string, string>)

  const FieldNames: set<string> := {"stdout", "stderr", "exit_code", "duration", "command", "context", "timed_out"}

  /** `ExecutionResult.to_dict`: every field under its own key. */
  function ToDict(r: ExecutionResult): (d: map<string, Value>)
    ensures d.Keys == FieldNames
  {
    map["stdout" := Str(r.stdout),
        "stderr" := Str(r.stderr),
        "exit_code" := Int(r.exitCode),
        "duration" := Real(r.duration),
        "command" := Str(r.command),
        "context" := Dict(r.context),
        "timed_out" := Bool(r.timedOut)]
  }

  /** Reads a serialised result back; None when a key is missing or holds a value of the wrong kind. */
  function FromDict(d: map<string, Value>): (r: Option<ExecutionResult>)
    ensures r.Some? ==> FieldNames <= d.Keys
  {
    if FieldNames <= d.Keys
       && d["stdout"].Str? && d["stderr"].Str? && d["exit_code"].Int? && d["duration"].Real?
       && d["command"].Str? && d["context"].Dict? && d["timed_out"].Bool?
    then
      Some(ExecutionResult(d["stdout"].s, d["stderr"].s, d["exit_code"].i, d["duration"].r,
                           d["command"].s, d["context"].d, d["timed_out"].b))
    else
      None
  }

  /** Serialisation loses nothing: the dictionary reads back as the same result. */
  lemma ToDictRoundTrip(r: ExecutionResult)
    ensures FromDict(ToDict(r)) == Some(r)
  {
  }

  /** A dictionary that reads back as a result is exactly that result's serialisation. */
  lemma FromDictExact(d: map<string, Value>)
    requires d.Keys == FieldNames
    requires FromDict(d).Some?
    ensures ToDict(FromDict(d).value) == d
  {
  }

  // ---------------------------------------------------------------- the batch

  /** The entry the batch holds for the file at position `i` when execution is enabled. */
  function FileResult(i: nat, file: SourceFile, stdin: seq<byte>, timeout: real, host: Host, env: Environment, world: World)
    : (res: Option<ExecutionResult>)
    ensures res == None <==> !Runnable(file, host)
  {
    var cmd := RunnerCommand(file.path, file.language, host.pythonExecutable);
    if cmd == [] then None
    else Some(Assemble(world(i, Launch(cmd, stdin, timeout)), cmd, Context(env(i)), host))
  }

  /** The launches an enabled batch makes, in file order: one per runnable file. */
  function LaunchPlan(files: seq<SourceFile>, stdin: seq<byte>, timeout: real, host: Host): (plan: seq<Launch>)
    ensures |plan| <= |files|
    ensures forall k :: 0 <= k < |plan| ==>
              plan[k].command != [] && plan[k].input == stdin && plan[k].timeout == timeout
  {
    if files == [] then []
    else
      var last := files[|files| - 1];
      var cmd := RunnerCommand(last.path, last.language, host.pythonExecutable);
      LaunchPlan(files[..|files| - 1], stdin, timeout, host)
        + if cmd == [] then [] else [Launch(cmd, stdin, timeout)]
  }

  /** The number of runnable files. */
  function CountRunnable(files: seq<SourceFile>, host: Host): (n: nat)
  {
    if files == [] then 0
    else CountRunnable(files[..|files| - 1], host) + if Runnable(files[|files| - 1], host) then 1 else 0
  }

  /** The number of entries that hold a result. */
  function Executed(entries: seq<Entry>): (n: nat)
  {
    if entries == [] then 0
    else Executed(entries[..|entries| - 1]) + if entries[|entries| - 1].1.Some? then 1 else 0
  }

  /** There are exactly as many launches as runnable files. */
  lemma {:induction false} LaunchPlanShape(files: seq<SourceFile>, stdin: seq<byte>, timeout: real, host: Host)
    ensures |LaunchPlan(files, stdin, timeout, host)| == CountRunnable(files, host)
  {
    if files != [] {
      LaunchPlanShape(files[..|files| - 1], stdin, timeout, host);
    }
  }

  /**
   * A runnable file's launch is the one after the launches of the runnable
   * files before it, and it runs that file's own command.
   */
  lemma {:induction false} LaunchOfFile(files: seq<SourceFile>, i: nat, stdin: seq<byte>, timeout: real, host: Host)
    requires i < |files| && Runnable(files[i], host)
    ensures CountRunnable(files[..i], host) < |LaunchPlan(files, stdin, timeout, host)|
    ensures LaunchPlan(files, stdin, timeout, host)[CountRunnable(files[..i], host)]
         == Launch(RunnerCommand(files[i].path, files[i].language, host.pythonExecutable), stdin, timeout)
  {
    var n := |files| - 1;
    var prefix := LaunchPlan(files[..n], stdin, timeout, host);
    if i == n {
      LaunchPlanShape(files[..n], stdin, timeout, host);
    } else {
      assert files[..n][..i] == files[..i];
      LaunchOfFile(files[..n], i, stdin, timeout, host);
      assert |prefix| <= |LaunchPlan(files, stdin, timeout, host)|;
    }
  }

  /** No file of an unrunnable language means no launch at all. */
  lemma {:induction false} NoRunnerNoLaunch(files: seq<SourceFile>, stdin: seq<byte>, timeout: real, host: Host)
    requires forall k :: 0 <= k < |files| ==> !Runnable(files[k], host)
    ensures LaunchPlan(files, stdin, timeout, host) == []
  {
    if files != [] {
      NoRunnerNoLaunch(files[..|files| - 1], stdin, timeout, host);
    }
  }

  lemma LaunchPlanStep(files: seq<SourceFile>, i: nat, stdin: seq<byte>, timeout: real, host: Host)
    requires i < |files|
    ensures LaunchPlan(files[..i + 1], stdin, timeout, host)
         == LaunchPlan(files[..i], stdin, timeout, host)
            + var cmd := RunnerCommand(files[i].path, files[i].language, host.pythonExecutable);
              if cmd == [] then [] else [Launch(cmd, stdin, timeout)]
  {
    assert files[..i + 1][..i] == files[..i];
  }

  /** The entries an enabled batch yields for `files`, the file at position k getting FileResult(k, ...). */
  function EnabledEntries(files: seq<SourceFile>, stdin: seq<byte>, timeout: real, host: Host, env: Environment, world: World)
    : (entries: seq<Entry>)
  {
    if files == [] then []
    else
      var n := |files| - 1;
      EnabledEntries(files[..n], stdin, timeout, host, env, world)
        + [(files[n], FileResult(n, files[n], stdin, timeout, host, env, world))]
  }

  /** The list `execute_files` returns. */
  function BatchResults(files: seq<SourceFile>, config: Config, host: Host, fs: FileSystem, env: Environment, world: World)
    : (entries: seq<Entry>)
    ensures |entries| == |files|
    ensures forall i :: 0 <= i < |files| ==> entries[i].0 == files[i]
    ensures !config.executionEnabled ==> forall i :: 0 <= i < |files| ==> entries[i].1 == None
  {
    if !config.executionEnabled then seq(|files|, i requires 0 <= i < |files| => (files[i], None))
    else
      EnabledEntriesShape(files, StdinBytes(config, fs), config.timeout, host, env, world);
      EnabledEntries(files, StdinBytes(config, fs), config.timeout, host, env, world)
  }

  /** The launches `execute_files` makes. */
  function BatchLaunches(files: seq<SourceFile>, config: Config, host: Host, fs: FileSystem): (launches: seq<Launch>)
  {
    if !config.executionEnabled then [] else LaunchPlan(files, StdinBytes(config, fs), config.timeout, host)
  }

  lemma EnabledEntriesStep(files: seq<SourceFile>, i: nat, stdin: seq<byte>, timeout: real, host: Host, env: Environment, world: World)
    requires i < |files|
    ensures EnabledEntries(files[..i + 1], stdin, timeout, host, env, world)
         == EnabledEntries(files[..i], stdin, timeout, host, env, world)
            + [(files[i], FileResult(i, files[i], stdin, timeout, host, env, world))]
  {
    assert files[..i + 1][..i] == files[..i];
  }

  /** An enabled batch yields one entry per file, in order, each the file's own FileResult. */
  lemma {:induction false} EnabledEntriesShape(files: seq<SourceFile>, stdin: seq<byte>, timeout: real, host: Host, env: Environment, world: World)
    ensures |EnabledEntries(files, stdin, timeout, host, env, world)| == |files|
    ensures forall i :: 0 <= i < |files| ==>
              EnabledEntries(files, stdin, timeout, host, env, world)[i]
                == (files[i], FileResult(i, files[i], stdin, timeout, host, env, world))
  {
    if files != [] {
      EnabledEntriesShape(files[..|files| - 1], stdin, timeout, host, env, world);
    }
  }

  /** An enabled batch executes exactly the runnable files. */
  lemma {:induction false} EnabledEntriesExecuted(files: seq<SourceFile>, stdin: seq<byte>, timeout: real, host: Host, env: Environment, world: World)
    ensures Executed(EnabledEntries(files, stdin, timeout, host, env, world)) == CountRunnable(files, host)
  {
    if files != [] {
      var n := |files| - 1;
      var entries := EnabledEntries(files, stdin, timeout, host, env, world);
      EnabledEntriesShape(files, stdin, timeout, host, env, world);
      assert entries[..n] == EnabledEntries(files[..n], stdin, timeout, host, env, world);
      EnabledEntriesExecuted(files[..n], stdin, timeout, host, env, world);
    }
  }

  /** Entries that all hold None count no execution. */
  lemma {:induction false} NoneExecuted(entries: seq<Entry>)
    requires forall k :: 0 <= k < |entries| ==> entries[k].1 == None
    ensures Executed(entries) == 0
  {
    if entries != [] {
      NoneExecuted(entries[..|entries| - 1]);
    }
  }

  /**
   * The batch contract: one entry per file, in order; with execution
   * disabled every entry is None and nothing is launched; otherwise an entry
   * is None exactly when its file has no runner, every other entry is the
   * result assembled from that file's own run, and each runnable file has
   * its own launch, in file order, with the batch's one stdin and timeout.
   */
  lemma BatchContract(files: seq<SourceFile>, config: Config, host: Host, fs: FileSystem, env: Environment, world: World)
    ensures var entries := BatchResults(files, config, host, fs, env, world);
      |entries| == |files|
      && (forall i :: 0 <= i < |files| ==> entries[i].0 == files[i])
      && (!config.executionEnabled ==> forall i :: 0 <= i < |files| ==> entries[i].1 == None)
      && (config.executionEnabled ==>
            forall i :: 0 <= i < |files| ==> (entries[i].1 == None <==> !Runnable(files[i], host)))
      && (config.executionEnabled ==>
            forall i :: 0 <= i < |files| ==>
              entries[i].1 == FileResult(i, files[i], StdinBytes(config, fs), config.timeout, host, env, world))
    ensures var launches := BatchLaunches(files, config, host, fs);
      |launches| == Executed(BatchResults(files, config, host, fs, env, world))
      && (!config.executionEnabled ==> launches == [])
      && (forall k :: 0 <= k < |launches| ==>
            launches[k].command != [] && launches[k].input == StdinBytes(config, fs)
            && launches[k].timeout == config.timeout)
      && (config.executionEnabled ==>
            forall i :: 0 <= i < |files| && Runnable(files[i], host) ==>
              CountRunnable(files[..i], host) < |launches|
              && launches[CountRunnable(files[..i], host)]
                 == Launch(RunnerCommand(files[i].path, files[i].language, host.pythonExecutable),
                           StdinBytes(config, fs), config.timeout))
  {
    var entries := BatchResults(files, config, host, fs, env, world);
    var stdin := StdinBytes(config, fs);
    if config.executionEnabled {
      EnabledEntriesShape(files, stdin, config.timeout, host, env, world);
      EnabledEntriesExecuted(files, stdin, config.timeout, host, env, world);
      LaunchPlanShape(files, stdin, config.timeout, host);
      forall i | 0 <= i < |files| && Runnable(files[i], host)
        ensures CountRunnable(files[..i], host) < |LaunchPlan(files, stdin, config.timeout, host)|
        ensures LaunchPlan(files, stdin, config.timeout, host)[CountRunnable(files[..i], host)]
             == Launch(RunnerCommand(files[i].path, files[i].language, host.pythonExecutable), stdin, config.timeout)
      {
        LaunchOfFile(files, i, stdin, config.timeout, host);
      }
    } else {
      NoneExecuted(entries);
    }
  }

  /**
   * `execute_files`: with execution disabled, every file paired with None.
   * Otherwise the stdin bytes are chosen once; then, file by file, a file
   * without a runner gets None and every other file is launched once and
   * gets the result assembled from its run.
   */
  method ExecuteFiles(files: seq<SourceFile>, config: Config, host: Host, fs: FileSystem, env: Environment, world: World)
    returns (results: seq<Entry>, launches: seq<Launch>)
    ensures results == BatchResults(files, config, host, fs, env, world)
    ensures launches == BatchLaunches(files, config, host, fs)
  {
    if !config.executionEnabled {
      results := seq(|files|, i requires 0 <= i < |files| => (files[i], None));
      launches := [];
      return;
    }

    var stdinContent: seq<byte> := if config.stdinInput != "" then Encode(config.stdinInput) else [];
    if config.inputFile != "" && config.inputFile in fs {
      stdinContent := fs[config.inputFile];
    }
    assert stdinContent == StdinBytes(config, fs);
    var timeout := config.timeout;

    results, launches := [], [];
    var i := 0;
    while i < |files|
      invariant 0 <= i <= |files|
      invariant results == EnabledEntries(files[..i], stdinContent, timeout, host, env, world)
      invariant launches == LaunchPlan(files[..i], stdinContent, timeout, host)
    {
      var file := files[i];
      LaunchPlanStep(files, i, stdinContent, timeout, host);
      EnabledEntriesStep(files, i, stdinContent, timeout, host, env, world);
      var cmd := RunnerCommand(file.path, file.language, host.pythonExecutable);
      if cmd == [] {
        results := results + [(file, None)];
      } else {
        var context := Context(env(i));
        var launch := Launch(cmd, stdinContent, timeout);
        launches := launches + [launch];
        var res := Assemble(world(i, launch), cmd, context, host);
        results := results + [(file, Some(res))];
      }
      i := i + 1;
    }
    assert files[..|files|] == files;
  }
}
