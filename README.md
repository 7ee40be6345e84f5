# Chuffed bridge: a verified model of its decision logic

The repository lets a host runtime hand FlatZinc programs to the Chuffed constraint solver.
It does so in two ways:

- **A native extension.** `solve_flatzinc/2` writes the payload to a scratch file, runs the
  `chuffed` executable on it, classifies what it printed, and deletes the file. Beside it are
  two inert handle entry points, `create_solver/0` and `destroy_solver/1`.
- **A standalone driver.** It reads a program from standard input, runs the embedded engine
  on it and prints one `ok`/`error` block.

This project models the logic between the external calls. The calls themselves are inputs:
the host's term inspection, the operating system's file and process primitives, and the
engine.

| module (file) | models |
|---|---|
| `Wrappers` (wrappers.dfy) | `Option` for the source's `false`, `-1`, `npos` and null returns |
| `Handles` (handles.dfy) | the `ChuffedSolver` resource and its destructor |
| `Terms` (terms.dfy) | host terms, `get_binary`, `make_binary`, `get_string_list` |
| `Classifier` (classifier.dfy) | `std::string::find` and the ok/error classifier |
| `ScratchPath` (scratch_path.dfy) | `create_temp_file` on POSIX and Windows, over a file system `map<path, contents>` |
| `Process` (process.dfy) | command and shell lines, wait-status decoding, `execute_command` |
| `Bridge` (bridge.dfy) | `solve_flatzinc_nif`, `create_solver_nif`, `destroy_solver_nif` |
| `Driver` (driver.dfy) | the driver's `main`: the stdin loop, the empty-input check and the decision tree |

Bytes are `seq<char>`, standing for the `char`s of the `std::string` the source keeps them in.
A Dafny `char` is a Unicode scalar value, so the model admits more values than a byte holds.

The driver's file is
`c_src/chuffed_cnode_simple.sync-conflict-20251110-224858-6ZCFETH.cpp`. The table below calls
it by that path.

The main results:

- **Scratch file.** Once `create_temp_file` has succeeded, every return path of the bridge
  removes the scratch path: after a failed open, a failed write, a failed execution and a
  normal run. On POSIX the file system afterwards equals the file system before the call.
- **Payload.** When the solver runs, the scratch file holds the payload byte for byte. On
  POSIX the shell hands the solver the scratch path as its one argument. On Windows it does so
  exactly when the temp directory holds none of cmd.exe's special characters (`^`, `&`, `|`,
  `<`, `>` or a line break), provided cmd.exe expands no `%name%` in it. Otherwise the outer
  cmd.exe of `_popen` acts on that character and the solver does not receive the path.
- **Classifier.** The reply is `{ok, output}` exactly when the exit code is 0 or the output
  contains `==========`. Otherwise it is `{error, output}`. The output is handed back
  unchanged.
- **Driver.** Every run writes exactly one block. An `ok\n<solution>` block goes to standard
  output with exit code 0. An `error\n<reason>\n` block goes to standard error with exit
  code 1. The stdin loop yields the input with a final newline added when the last line lacks
  one, so the fix-up after the loop never fires.

## Model

| member | source | states |
|---|---|---|
| `Handles.SolverHandle.constructor` | c_src/chuffed_solver.cpp:299-300 | a new handle has a null engine pointer and is not initialized |
| `Handles.Destructor` | c_src/chuffed_solver.cpp:55-61 | afterwards the handle is not initialized and its pointer is unchanged; on a handle that is already down, or a null one, nothing changes (idempotent) |
| `Terms.GetBinary` | c_src/chuffed_solver.cpp:83-90 | yields bytes exactly for binary terms, and then that binary's bytes |
| `Terms.MakeBinary` | c_src/chuffed_solver.cpp:93-100 | when allocation succeeds, reading the result back with `GetBinary` gives the string (round trip); otherwise the result is the bare atom `error` |
| `Terms.LeadingBinaries` | c_src/chuffed_solver.cpp:107-113 | the bytes of the binaries that open a list, in order, stopping exactly at the first non-binary |
| `Terms.ListCell` | c_src/chuffed_solver.cpp:107 | a cell exists exactly for a non-empty list (a `[head \| tail]` cell or a non-empty character list); its tail has one cell fewer; a `[head \| tail]` cell yields that head and tail; a character list's head is the code of its first character |
| `Terms.Cells` | c_src/chuffed_solver.cpp:107 | the walk along the tails visits as many cells as the list has, and none for a non-list term |
| `Terms.CellsStep` | c_src/chuffed_solver.cpp:107 | a walk that finds a cell visits its head first, then the cells of its tail |
| `Terms.CharListIsNoStringList` | c_src/chuffed_solver.cpp:107-110 | the first cell of a non-empty character list is an integer, so no binaries lead it and `get_string_list` fails there |
| `Terms.GetStringList` | c_src/chuffed_solver.cpp:103-116 | succeeds iff every list cell holds a binary; the result is the bytes of the leading binaries in list order: all of them on success, those before the first non-binary on failure; a non-list term gives success with an empty result; a non-empty character list fails |
| `Terms.WalkEnd` | c_src/chuffed_solver.cpp:107-115 | where the walk stops, the strings collected are the leading binaries of all cells, and they are all of them exactly when the walk reached the end of the list |
| `Classifier.FindFrom` | c_src/chuffed_solver.cpp:269 | a found index is an occurrence at or after the start, and no earlier one exists; nothing found means no occurrence at or after the start |
| `Classifier.Find` | c_src/chuffed_solver.cpp:269 | finds something iff the pattern occurs, and then its first occurrence |
| `Classifier.Classify` | c_src/chuffed_solver.cpp:269-281 | tag ok iff exit code 0 or the output contains `==========`, error iff neither; the payload is the output unchanged |
| `Classifier.UnsatBannerIsNoTerminator` | c_src/chuffed_solver.cpp:269 | `=====UNSATISFIABLE=====` holds no terminator, so a run whose whole output is that banner line is ok iff its exit code is 0 |
| `ScratchPath.PosixTemplate` | c_src/chuffed_solver.cpp:145 | the template splits into `/tmp/`, the prefix, `XXXXXX` and the suffix, in that order |
| `ScratchPath.Mkstemp` | c_src/chuffed_solver.cpp:149-153 | succeeds only on a template ending in `XXXXXX`; the name created was free and keeps everything before the placeholder |
| `ScratchPath.Mkstemps` | c_src/chuffed_solver.cpp:149-153 | the corrected call from "## Findings", not the `mkstemp` these lines make: succeeds only when `XXXXXX` sits just before the suffix; the name created was free, keeps the text before the placeholder and the suffix, and fails only for a bad template, an OS failure or a taken name |
| `ScratchPath.MkstempRejectsScratchTemplate` | c_src/chuffed_solver.cpp:145-153 | mkstemp, as called, fails on `/tmp/chuffed_XXXXXX.fzn` whatever the system answers |
| `ScratchPath.MkstempsAcceptsScratchTemplate` | c_src/chuffed_solver.cpp:145-157 | mkstemps with the suffix length creates `/tmp/chuffed_<token>.fzn` whenever that name is free |
| `ScratchPath.LastIndexOf` | c_src/chuffed_solver.cpp:139 | a found index holds the character and none follows it; nothing found means the character is absent |
| `ScratchPath.ReplaceExtension` | c_src/chuffed_solver.cpp:138-143 | the result ends with the suffix; the stem before it is the name cut at its last `.`, or the whole name when it has no `.` |
| `ScratchPath.WindowsTempName` | c_src/chuffed_solver.cpp:127-132 | the name GetTempFileNameA creates is the temp directory, `CHF`, the unique number and `.TMP`, in that order |
| `ScratchPath.WindowsScratchPath` | c_src/chuffed_solver.cpp:127-143 | the Windows scratch path is the temp directory, `CHF`, the unique number and the suffix, whatever dots the directory holds |
| `ScratchPath.CreateTempFile` | c_src/chuffed_solver.cpp:119-160 | POSIX: fails only when mkstemps fails or the name is taken; otherwise the path is `/tmp/<prefix><token><suffix>`, was free, and is now an empty file. Windows: fails only when GetTempPathA or GetTempFileNameA fails; otherwise the path is `<dir>CHF<unique><suffix>` and the only trace left is the `.TMP` file when DeleteFileA failed. On failure nothing changes |
| `Process.Command` | c_src/chuffed_solver.cpp:248-253 | the command is `chuffed ` and then the path; on Windows the path is wrapped in double quotes |
| `Process.ShellLine` | c_src/chuffed_solver.cpp:163-169 | the POSIX line is the command followed by the `2>&1` redirection; the Windows line is `cmd.exe /c ` and the command followed by the redirection, all in double quotes |
| `Process.WordsOfWordThenBlank` | c_src/chuffed_solver.cpp:169 | for the shell, a word with no blank and no double quote followed by a blank is the first word of the line |
| `Process.WordsOfQuotedThenBlank` | c_src/chuffed_solver.cpp:250 | a double-quoted text with no double quote inside is one word, blanks included |
| `Process.CmdUnwraps` | c_src/chuffed_solver.cpp:166 | `cmd.exe /c` runs the command inside the outer double quotes |
| `Process.PosixPathIsOneArgument` | c_src/chuffed_solver.cpp:169 | on POSIX, a path with no blank and no double quote reaches the solver as its one argument |
| `Process.PosixBlankSplitsPath` | c_src/chuffed_solver.cpp:252 | on POSIX, a blank in the path splits it: the solver gets two arguments |
| `Process.UnquotedWindowsLine` | c_src/chuffed_solver.cpp:166-167 | `_popen` hands the line to an outer `cmd.exe /c`, which finds the path, and only the path, outside double quotes |
| `Process.WindowsLinePassesOuterCmd` | c_src/chuffed_solver.cpp:166-167 | for a path with no double quote, the outer cmd.exe hands the Windows line on unchanged iff the path holds none of cmd.exe's special characters |
| `Process.WindowsPathIsOneArgument` | c_src/chuffed_solver.cpp:248-250 | on Windows, a path with no double quote and none of cmd.exe's special characters reaches the solver as its one argument, blanks included |
| `Process.WindowsCmdSpecialBreaksLine` | c_src/chuffed_solver.cpp:166-167 | on Windows, a path holding one of cmd.exe's special characters does not reach the solver: the outer cmd.exe acts on it |
| `Process.PosixScratchPathIsOneArgument` | c_src/chuffed_solver.cpp:145-169 | the POSIX scratch path `/tmp/chuffed_<token>.fzn` reaches the solver as its one argument |
| `Process.WindowsScratchPathIsOneArgument` | c_src/chuffed_solver.cpp:127-169 | the Windows scratch path `<dir>CHF<unique>.fzn` reaches the solver as its one argument iff the temp directory holds none of cmd.exe's special characters, whatever blanks it holds; otherwise it does not reach the solver; the line holds a `%` only where the directory does |
| `Process.WTermSig` | c_src/chuffed_solver.cpp:187-192 | the signal number is the low seven bits of the wait status: in 0..127 and congruent to it modulo 128 |
| `Process.WIfExited` | c_src/chuffed_solver.cpp:187-192 | a child exited normally exactly when no signal number is recorded |
| `Process.WExitStatus` | c_src/chuffed_solver.cpp:192 | the decoded exit code lies in 0..255 |
| `Process.WExitStatusOfExit` | c_src/chuffed_solver.cpp:191-192 | a child that exits with code c (wait status c·256) counts as exited and decodes to c |
| `Process.SignalledChildReadsAsExitZero` | c_src/chuffed_solver.cpp:187-192 | the status of a child killed by a signal is no normal exit, records that signal, and decodes to exit code 0 |
| `Process.ExitCodeOf` | c_src/chuffed_solver.cpp:187-192 | the corrected decoding from "## Findings", not the bare `WEXITSTATUS` of these lines: the code lies in 0..255 and is 0 iff the child exited normally with status 0; for a normal exit it is WEXITSTATUS |
| `Process.ExecuteCommand` | c_src/chuffed_solver.cpp:163-195 | fails iff popen fails or pclose returns -1; otherwise the output is passed through; on Windows the code is `_pclose`'s result; on POSIX it lies in 0..255 and is 0 iff the child exited with 0 |
| `Bridge.ClassifiedReply` | c_src/chuffed_solver.cpp:269-281 | the reply is tagged ok iff exit code 0 or the terminator occurs; its second element is the output as a binary (or the atom `error` when allocation fails) |
| `Bridge.SolveFlatZinc` | c_src/chuffed_solver.cpp:198-282 | a non-binary payload gives `{error, invalid_flatzinc}` with no file touched; a failed create gives `failed_to_create_temp_file` with nothing changed; after a successful create the scratch path is absent on return; a started solver receives the scratch path as its one argument iff the platform is POSIX or the Windows temp directory holds none of cmd.exe's special characters; on POSIX the file system is unchanged; options never affect the reply; every reply is `{ok, _}` or `{error, _}` |
| `Bridge.ScratchReachesSolver` | c_src/chuffed_solver.cpp:219-257 | the path `create_temp_file` names reaches the solver as its one argument: always on POSIX, and on Windows iff the temp directory holds none of cmd.exe's special characters |
| `Bridge.StageAndRun` | c_src/chuffed_solver.cpp:226-282 | open, write and execute failures give their error strings; the file is removed on every path and nothing else changes; when the solver runs it gets the shell line for the path and finds the payload there unchanged; a finished run is classified |
| `Bridge.CreateSolver` | c_src/chuffed_solver.cpp:286-309 | `{error, allocation_failed}` when allocation fails, otherwise `{ok, handle}` with a fresh, inert handle |
| `Bridge.DestroySolver` | c_src/chuffed_solver.cpp:312-327 | `ok` iff the term is a solver handle, `{error, invalid_resource}` otherwise |
| `Driver.Report` | c_src/chuffed_cnode_simple.sync-conflict-20251110-224858-6ZCFETH.cpp:70-85 | exactly one block is written. Exit 0 iff the status is SAT, or it is not unsatisfiable and the solution text is non-empty; an ok block carries the solution. Local or global unsatisfiability gives `UNSATISFIABLE` even with a solution text. Any other status with an empty text gives `No solution found` |
| `Driver.Caught` | c_src/chuffed_cnode_simple.sync-conflict-20251110-224858-6ZCFETH.cpp:87-92 | a `std::exception` gives `error\n<what()>\n`, anything else `error\nUnknown exception\n`; both exit 1 with one block |
| `Driver.Respond` | c_src/chuffed_cnode_simple.sync-conflict-20251110-224858-6ZCFETH.cpp:40-92 | one block; a parse or solve exception gives `Caught`'s block for it, a null parse result gives `Failed to parse FlatZinc problem`, a finished solve gives `Report`'s block; exit 0 iff parsing gave a problem, solving finished and `Report` succeeds |
| `Driver.Terminated` | c_src/chuffed_cnode_simple.sync-conflict-20251110-224858-6ZCFETH.cpp:30-33 | a text that is empty or already ends in a newline is left unchanged; any other text gets one newline appended; so the result is empty iff the input is, and a non-empty result ends in a newline |
| `Driver.LineEnd` | c_src/chuffed_cnode_simple.sync-conflict-20251110-224858-6ZCFETH.cpp:26 | a line ends at the first newline at or after its start, or at the end of the input |
| `Driver.ReadProgram` | c_src/chuffed_cnode_simple.sync-conflict-20251110-224858-6ZCFETH.cpp:24-33 | the content is the newline-free lines read, each followed by `\n`; it equals the input with a final newline added when missing; it is empty iff no line was read; a non-empty content ends in `\n` |
| `Driver.RunDriver` | c_src/chuffed_cnode_simple.sync-conflict-20251110-224858-6ZCFETH.cpp:20-94 | exactly one block is written. Exit 0 iff standard output is non-empty, and then standard error is empty. Empty input gives `error\nNo FlatZinc content provided\n` with exit 1. The parser receives the input ending in a newline |

Behaviour of the code worth noting (the model follows the code):

- On Windows the scratch name is `CHF<unique>.fzn` in the temp directory, so the `chuffed_`
  prefix is not used there.
- On POSIX the exit code is bits 8 to 15 of the wait status (`WEXITSTATUS`).
- When the reply binary cannot be allocated, the reply is `{ok, error}` or `{error, error}`,
  with the bare atom `error` as its second element.
- Error blocks of the driver end in a newline (`std::endl`).
- After a failed open, the scratch path is removed unconditionally.
- On Windows `_popen` runs its line under `cmd.exe /c` once more, so the line
  `cmd.exe /c "chuffed "<path>" 2>&1"` passes through cmd.exe twice. The outer cmd.exe sees the
  path outside quotes. A temp directory holding `&` (a user name such as `A&B`) or `^` therefore
  breaks the command, and so would `|`, `<`, `>` or a line break, which Windows file names
  cannot hold. The model says only that the solver then does not receive the path
  (`SolverArguments` gives `None`), not what runs instead. A `%` breaks nothing unless it
  starts a `%name%` for a defined variable (a user name such as `50%off` is harmless).
- On Windows the `.fzn` path is not created atomically. Whatever sits at that path is truncated,
  overwritten and then deleted (`Bridge.StageAndRun` only requires that the path was named).

## Left out

- The host runtime's term API (`enif_inspect_binary`, `enif_alloc_binary`, `enif_make_*`,
  `enif_get_resource`) is left out. It is modelled as the `Term` datatype and an `allocOk`
  flag. `enif_get_list_cell` is modelled (`Terms.ListCell`), character lists included.
- The resource-type registration in `load` (c_src/chuffed_solver.cpp:64-80) and `ERL_NIF_INIT`
  are host glue with no decision logic.
- The `argc` checks (c_src/chuffed_solver.cpp:199-201, 287-289, 313-315) are left out: the
  function table fixes each arity, so the host never calls with another count.
- Process spawning and reading are inputs (`PipeOutcome`): `popen`/`_popen`, `pclose`, and the
  4096-byte `fgets` loop that concatenates the child's output.
- `remove()` is modelled as always succeeding on the file the bridge itself created; its
  return value is ignored by the code.
- The names the OS primitives choose are inputs, and so is whether they succeed:
  `mkstemp`/`mkstemps`, `GetTempPathA`, `GetTempFileNameA`, `DeleteFileA`. Uniqueness across
  concurrent calls is the primitives' business and is not modelled.
- The Chuffed engine is an input (`Driver.Parse`): `parseOptions`, `FlatZinc::solve`,
  `engine.solve`, `setOutputStream`, `set_assumptions`. The engine's `RESULT` enum is taken as
  {unknown, global unsat, local unsat, SAT, searching}. The engine headers are not part of this
  model.
- The driver's `error_stream` is collected and never used, so it is not modelled.
- The driver's flushing and any text the engine prints on its own are left out.
- Exceptions other than those escaping the engine are left out: `std::bad_alloc` from string
  growth and stream failures.
- How the shell splits a line into arguments is modelled only for blanks and double quotes
  (`Process.Words`). On Windows, cmd.exe's special characters are modelled only as far as
  whether the line survives them (`Process.PassesOuterCmd`); what cmd.exe makes of a line that
  does not is left out. Also left out are:
  - sh's other special characters (`$`, backquote, backslash, single quotes, `;`, `&`, `|`,
    `<`, `>`, globs);
  - cmd.exe's `!` expansion, which is off unless delayed expansion is enabled;
  - the C runtime's backslash-before-quote rule;
  - the case where `cmd /c` keeps a line's quotes (exactly two quotes around an executable
    name).

  The POSIX scratch path contains none of sh's special characters. It holds only
  `/tmp/chuffed_`, an alphanumeric token and `.fzn`. The Windows scratch path ends in `.fzn`,
  so no backslash comes before its closing quote; its directory may hold cmd.exe's special
  characters, and then the path does not reach the solver (see above).
- `Process.SolverArguments` takes cmd.exe to expand no variable. cmd.exe replaces `%name%` when
  `name` is defined in its environment, which is not modelled. So on Windows the "reaches the
  solver" half of `Process.WindowsPathIsOneArgument`, `Process.WindowsScratchPathIsOneArgument`,
  `Bridge.ScratchReachesSolver` and `Bridge.SolveFlatZinc` is sure only for a temp directory
  that holds no `%name%` naming a defined variable. A directory without `%` is always such a
  directory. The "does not reach" half, for `^`, `&`, `|`, `<`, `>` and line breaks, holds in
  every environment.
- A Windows temp directory is assumed to hold no double quote (`TempEnv.Valid`), since
  Windows file names cannot contain one.
- Concurrency, blocking-scheduler routing and cancellation are left out; every entry point is
  sequential.
- `Process.ExecuteCommand` and `ScratchPath.CreateTempFile` use the corrected definitions from
  the findings below. The behaviour as written is modelled by `Process.WExitStatus` and
  `ScratchPath.Mkstemp`.

## Findings

| source | as written | input that shows it | evidently intended | confidence | as-written member | corrected member |
|---|---|---|---|---|---|---|
| c_src/chuffed_solver.cpp:145-153 | `mkstemp` on the template `/tmp/chuffed_XXXXXX.fzn` | any call on a glibc or musl system: the last six characters are `XX.fzn`, so `mkstemp` fails with EINVAL and every solve returns `failed_to_create_temp_file` (BSD-derived C libraries replace only trailing X's, of which there are none here) | `mkstemps(template, 4)`, which keeps the `.fzn` suffix | high; not executed | `ScratchPath.MkstempRejectsScratchTemplate` | `ScratchPath.MkstempsAcceptsScratchTemplate` |
| c_src/chuffed_solver.cpp:187-192 | `WEXITSTATUS` without checking `WIFEXITED` | `chuffed` killed by SIGKILL while `/bin/sh` has exec'd it (as dash does): pclose status 9 decodes to exit code 0, so any partial output comes back as `{ok, …}` | a child ended by a signal does not count as exit code 0 (here 128 + signal) | medium; not executed | `Process.SignalledChildReadsAsExitZero` | `Process.ExitCodeOf` |
