# Batch execution engine of code-submit, in Dafny

This project models the batch execution engine of code-submit
(`codesubmit/executor.py`). The engine takes the source files the scanner found
and runs each one as a child process:

- it resolves the command that runs a file from the file's language;
- it chooses, once per batch, the bytes every child reads on stdin;
- it turns each child's outcome into an `ExecutionResult`: completed, timed out
  or failed to launch;
- it returns one `(file, result-or-None)` entry per file, in order.

Three modules:

- `Wrappers` (wrappers.dfy) holds `Option`, Python's `None`.
- `Utf8` (utf8.dfy) holds UTF-8 encoding as section 3 of RFC 3629 defines it.
  It stands for `str.encode('utf-8')`.
- `Executor` (executor.dfy) holds the engine.

The pure parts of the source are functions: `RunnerCommand`, `StdinBytes`,
`Context`, `Assemble` and `ToDict`. The loop of `execute_files` is the method
`ExecuteFiles`. It builds its result list by appending, as the source does, and
its loop invariants tie the list to the function `BatchResults`. The batch
properties are lemmas about that function.

What the engine does not decide comes in as parameters:

- `World` is the child process. Given a file's position in the batch and its
  `Launch` (argument list, stdin bytes, timeout), it answers with a `Run`: an
  `Outcome` and the elapsed wall-clock time. The outcome is `Completed(stdout,
  stderr, returnCode)`, `TimedOut(partial stdout?, partial stderr?)` or
  `Failed(message)`.
- `FileSystem` is a map from path to contents. A path exists when it is a key.
- `Environment` gives, for each position in the batch, the `Ambient` state
  read when that file is executed: the working directory, the environment
  variables and `os.name`.
- `Host` holds `sys.executable` and two library routines:
  `bytes.decode('utf-8', errors='replace')` and `shlex.join`.

`ExecuteFiles` also returns the list of launches it made. That list lets the
model state that a disabled batch launches nothing, and that every launch gets
the same stdin bytes and timeout.

Two points about what the code does:

- The Python runner is `[sys.executable, path]` with no unbuffered flag
  (lines 32-33).
- Interactive mode is not in this file.

## Model

| member | source | states |
|---|---|---|
| `Executor.RunnerCommand` | codesubmit/executor.py:30-38 | The command is empty exactly when the language is neither `Python` nor `Java`. Otherwise it has two elements: the runner (`sys.executable` for Python, `java` for Java) followed by the file's path. |
| `Executor.RunnableByLanguage` | codesubmit/executor.py:30-38 | Whether a file has a runner depends only on its language, never on its path. |
| `Executor.StdinBytes` | codesubmit/executor.py:51-55 | An input file that is set and exists supplies stdin verbatim, whatever the stdin text is. Otherwise the UTF-8 of the stdin text is used; that is empty when the text is unset, so the `else b""` case needs no separate rule. |
| `Executor.StdinPrecedence` | codesubmit/executor.py:51-55 | The stdin bytes are empty exactly when the chosen source is empty: an empty input file, or, with no usable input file, an unset or empty text. |
| `Executor.StdinAsciiText` | codesubmit/executor.py:51 | With no usable input file, an ASCII stdin text reaches the child byte for byte, with the same length. |
| `Utf8.EncodeChar` | codesubmit/executor.py:51 | Each character encodes to 1 to 4 bytes. A character below 0x80 is one byte equal to itself. A longer encoding starts with a lead byte of at least 0xC0, and every following byte is a continuation byte in [0x80, 0xC0). |
| `Utf8.Encode` | codesubmit/executor.py:51 | A text of n characters encodes to between n and 4n bytes. The bytes are empty exactly when the text is empty. |
| `Utf8.EncodeAscii` | codesubmit/executor.py:51 | An ASCII-only text encodes to its own code points, one byte each. |
| `Executor.Context` | codesubmit/executor.py:71-77 | The context has exactly the keys `cwd`, `env_user` and `env_os`. `env_user` is `USERNAME` from the environment when that variable is set, and `unknown` otherwise. |
| `Executor.Assemble` | codesubmit/executor.py:79-122 | In all three branches the result holds the same `shlex.join(cmd)`, the context and the elapsed time. `timed_out` is true exactly for a timeout. `exit_code` is the process's return code for a completed run and -1 otherwise. |
| `Executor.AssembleCompleted` | codesubmit/executor.py:81-99 | A completed run keeps its return code, zero or not, and `timed_out` is false. Its stdout and stderr are the decoded captured streams. |
| `Executor.AssembleTimedOut` | codesubmit/executor.py:101-111 | A timeout gives exit code -1 and `timed_out` true. Stdout is the decoded partial output, or empty when none was captured. Stderr is the decoded partial error output, or `Timeout Expired` when none was captured, empty bytes included. |
| `Executor.AssembleFailed` | codesubmit/executor.py:112-122 | A failed launch gives an empty stdout, exit code -1 and `timed_out` false. Stderr is `Execution Failed: ` followed by exactly the exception's message. |
| `Executor.ResultRevealsOutcome` | codesubmit/executor.py:91-122 | A reader of the result can rely on `timed_out`. Any exit code other than -1 is a real return code. Exit code -1 without a timeout means a failed launch or a child that itself returned -1. |
| `Executor.ToDict` | codesubmit/executor.py:19-28 | The dictionary has exactly the seven keys `stdout`, `stderr`, `exit_code`, `duration`, `command`, `context` and `timed_out`. |
| `Executor.FromDict` | codesubmit/executor.py:19-28 | A reference reader that the source does not have: it inverts the key-to-field mapping of `to_dict` for the two round-trip lemmas. Reading back succeeds only when all seven keys are present. |
| `Executor.ToDictRoundTrip` | codesubmit/executor.py:19-28 | Each field is stored under its own name with its own value, so reading the dictionary back gives the same result. |
| `Executor.FromDictExact` | codesubmit/executor.py:19-28 | A seven-key dictionary that reads back as a result is exactly that result's `to_dict`. |
| `Executor.FileResult` | codesubmit/executor.py:60-66 | An enabled batch gives a file no result exactly when its runner command is empty. |
| `Executor.LaunchPlan` | codesubmit/executor.py:59-87 | The `subprocess.run` calls of an enabled batch, in file order. There are never more launches than files, and every launch has a non-empty command, the batch's single stdin bytes and the configured timeout. |
| `Executor.LaunchPlanShape` | codesubmit/executor.py:59-87 | The number of launches equals the number of runnable files. |
| `Executor.LaunchOfFile` | codesubmit/executor.py:59-87 | A runnable file's launch comes right after the launches of the runnable files before it, and it runs that file's own command with the batch's stdin bytes and timeout. |
| `Executor.NoRunnerNoLaunch` | codesubmit/executor.py:62-66 | When no file has a runner, no process is launched. |
| `Executor.EnabledEntriesShape` | codesubmit/executor.py:59-126 | An enabled batch yields exactly one entry per file, in input order. Entry i holds file i and that file's own result, built from the run of file i. |
| `Executor.EnabledEntriesExecuted` | codesubmit/executor.py:59-126 | In an enabled batch, the number of entries holding a result equals the number of runnable files. |
| `Executor.NoneExecuted` | codesubmit/executor.py:47-48 | A list of entries that are all `None` counts no execution. |
| `Executor.BatchResults` | codesubmit/executor.py:44-126 | The list `execute_files` returns has one entry per file, in input order, each pairing the input file. With execution disabled every result is `None`. |
| `Executor.BatchContract` | codesubmit/executor.py:44-126 | The returned list has one entry per file, in order, each pairing the input file. With execution disabled every result is `None` and nothing is launched. With execution enabled, a result is `None` exactly when the file has no runner, and otherwise it is the result assembled from that file's run. Processing continues past skipped files. There is one launch per non-`None` result, and every launch uses the same stdin bytes and timeout. Each runnable file gets its own launch of its own command, in file order. |
| `Executor.ExecuteFiles` | codesubmit/executor.py:44-126 | The loop returns exactly `BatchResults` and makes exactly the launches `BatchLaunches` lists, in file order. The disabled batch returns early with every file paired with `None`. |

## Left out

- Launching the child process (`subprocess.run`, its kill on timeout and the
  capture of its streams) is the `World` parameter. The model does not assume
  that two launches of the same command behave alike.
- The clock (`time.time`) is left out. `duration` is the elapsed time the
  `World` reports for a run.
- `os.getcwd`, `os.environ` and `os.name` are the `Environment` parameter,
  read anew for each executed file. A child can change what they read for
  later files, for example by renaming its working directory.
- Exceptions raised outside the `try` end the whole batch in the source. The
  model does not capture them, so its "one entry per file" holds only for
  batches where none occurs. Examples: `os.getcwd()` at line 72 raises
  `FileNotFoundError` after a child deletes the working directory, and the
  `print` calls at lines 64 and 68 can raise `BrokenPipeError`.
- `os.path.exists` and reading the input file are the `FileSystem` map. A path
  that exists but cannot be read is not modelled: for example a directory, for
  which `open` raises outside the `try` and aborts the whole batch.
- `shlex.join` and decoding with `errors='replace'` are `Host` functions with
  no stated properties. Re-splitting `command` into the argument list is
  therefore not proved.
- `sys_python_executable` (lines 40-42) is the `Host` field
  `pythonExecutable`, a fixed string for the run.
- The progress `print` calls at lines 64 and 68 are console output and are left
  out.
- Exceptions that are not `Exception` subclasses, such as
  `KeyboardInterrupt`, escape the `try` in the source. They are not modelled.
- Python's `None` and the empty string behave the same for `stdin_input` and
  `input_file`, so both are modelled as `""`.
- Dafny strings cannot hold lone surrogates, so the `UnicodeEncodeError` that
  such a `stdin_input` would raise at line 51 is not modelled.
- The timeout is passed through unchanged as a real number. A timeout of
  `None` (wait forever) has no separate case.
- The interactive mode and its stream and input relays are not in this source
  file. Their point is concurrency, so they are not part of this model.
