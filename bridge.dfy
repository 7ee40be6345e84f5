/** The host-callable entry points of the native extension (c_src/chuffed_solver.cpp:198-327):
    `solve_flatzinc/2`, which stages the payload in a scratch file, runs the solver on it
    and classifies what it printed, and the inert `create_solver/0` and `destroy_solver/1`. */
module Bridge {
  import opened Wrappers
  import opened Handles
  import opened Terms
  import opened Classifier
  import opened ScratchPath
  import opened Process

  /** How writing and closing the scratch file went: `fout.good()` held, or the stream failed
      after `written` bytes reached the file. */
  datatype WriteOutcome = WriteOk | WriteFailed(written: nat)

  /** Everything the operating system and the host answer during one `solve` call. */
  datatype World = World(
    platform: Platform,
    temp: TempEnv,
    /** Whether `std::ofstream` opened the scratch path. */
    openOk: bool,
    write: WriteOutcome,
    run: PipeOutcome,
    /** Whether the host allocated the binary for the reply. */
    allocOk: bool)

  /** What the solver was started with: the shell line and the scratch file's contents. */
  datatype Invocation = Invocation(line: string, scratch: string)

  const ScratchPrefix: string := "chuffed_"
  const ScratchSuffix: string := ".fzn"

  /** The scratch file `create_temp_file("chuffed_", ".fzn")` makes in this world. */
  function Scratch(fs: FileSystem, w: World): TempResult
    requires w.temp.Valid()
  {
    CreateTempFile(w.platform, ScratchPrefix, ScratchSuffix, fs, w.temp)
  }

  /** The reply for a finished run: the classifier's tag around the output as a binary. */
  function ClassifiedReply(c: Captured, allocOk: bool): (t: Term)
    ensures t.Tuple2? && t.second == MakeBinary(c.output, allocOk)
    ensures t.first == Atom("ok") <==> c.exitCode == 0 || Contains(c.output, SolutionTerminator)
    ensures t.first == Atom("error") <==> !(c.exitCode == 0 || Contains(c.output, SolutionTerminator))
  {
    var tagged := Classify(c.exitCode, c.output);
    Tuple2(Atom(if tagged.tag == Ok then "ok" else "error"), MakeBinary(tagged.payload, allocOk))
  }

  /** `solve_flatzinc_nif`. The options argument is read and defaulted to "{}" but nothing
      uses it: no clause below mentions `options`, and each determines the reply. Once the
      scratch file exists, every return path removes it. */
  method SolveFlatZinc(flatzinc: Term, options: Term, fs: FileSystem, w: World)
    returns (reply: Term, fs': FileSystem, ghost invoked: Option<Invocation>)
    requires w.temp.Valid()
    // not a binary: rejected before any file is touched
    ensures !flatzinc.Binary? ==> reply == ErrorTuple(Atom("invalid_flatzinc")) && fs' == fs && invoked.None?
    ensures flatzinc.Binary? && Scratch(fs, w).path.None? ==>
      reply == ErrorTuple(CharList("failed_to_create_temp_file")) && fs' == fs && invoked.None?
    // from here on the scratch file is staged, used and removed again
    ensures flatzinc.Binary? && Scratch(fs, w).path.Some? ==>
      var path := Scratch(fs, w).path.value;
      && path !in fs'
      && fs' == Scratch(fs, w).fs - {path}
      && StagedOutcome(reply, invoked, flatzinc.bytes, path, w)
    // when the solver is started, the shell hands it the scratch path as its one argument,
    // unless a Windows temp directory holds one of cmd.exe's special characters
    ensures invoked.Some? ==>
      && flatzinc.Binary? && Scratch(fs, w).path.Some?
      && (SolverArguments(w.platform, invoked.value.line) == Some(["chuffed", Scratch(fs, w).path.value])
          <==> w.platform == Posix || (w.temp.tempDir.Some? && CmdPlain(w.temp.tempDir.value)))
    // on POSIX the scratch file was free before the call, so nothing is left behind
    ensures w.platform == Posix ==> fs' == fs
    // every reply is a two-tuple tagged ok or error
    ensures reply.Tuple2? && (reply.first == Atom("ok") || reply.first == Atom("error"))
  {
    invoked := None;
    var content := GetBinary(flatzinc);
    if content.None? {
      return ErrorTuple(Atom("invalid_flatzinc")), fs, None;
    }
    var optionsJson := GetBinary(options).GetOr("{}");

    var created := CreateTempFile(w.platform, ScratchPrefix, ScratchSuffix, fs, w.temp);
    if created.path.None? {
      return ErrorTuple(CharList("failed_to_create_temp_file")), created.fs, None;
    }
    reply, fs', invoked := StageAndRun(content.value, created.path.value, created.fs, w);
    if invoked.Some? {
      ScratchReachesSolver(fs, w);
    }
  }

  /** The scratch file `create_temp_file` names reaches the solver as its one argument:
      always on POSIX, and on Windows exactly when the temp directory holds none of cmd.exe's
      special characters. */
  lemma ScratchReachesSolver(fs: FileSystem, w: World)
    requires w.temp.Valid() && Scratch(fs, w).path.Some?
    ensures var path := Scratch(fs, w).path.value;
      SolverArguments(w.platform, ShellLine(w.platform, Command(w.platform, path))) == Some(["chuffed", path])
      <==> w.platform == Posix || (w.temp.tempDir.Some? && CmdPlain(w.temp.tempDir.value))
  {
    match w.platform
    case Posix =>
      assert Scratch(fs, w).path.value == "/tmp/chuffed_" + w.temp.token.value + ".fzn";
      PosixScratchPathIsOneArgument(w.temp.token.value);
    case Windows =>
      WindowsScratchPathIsOneArgument(w.temp.tempDir.value, w.temp.unique.value);
  }

  /** The replies of the steps after the scratch file is named: open, write, execute,
      classify. The solver, when it runs, runs on the shell line for `path` and finds the
      payload there byte for byte. */
  ghost predicate StagedOutcome(reply: Term, invoked: Option<Invocation>, content: string, path: string, w: World)
  {
    && (!w.openOk ==> reply == ErrorTuple(CharList("failed_to_open_temp_file")) && invoked.None?)
    && (w.openOk && w.write.WriteFailed? ==>
          reply == ErrorTuple(CharList("failed_to_write_temp_file")) && invoked.None?)
    && (w.openOk && w.write.WriteOk? ==>
          && invoked == Some(Invocation(ShellLine(w.platform, Command(w.platform, path)), content))
          && (ExecuteCommand(w.platform, w.run).None? ==>
                reply == ErrorTuple(CharList("failed_to_execute_chuffed")))
          && (ExecuteCommand(w.platform, w.run).Some? ==>
                reply == ClassifiedReply(ExecuteCommand(w.platform, w.run).value, w.allocOk)))
  }

  /** The part of `solve_flatzinc_nif` after `create_temp_file` succeeded: each failure
      removes the scratch file before replying, and so does normal completion. */
  method StageAndRun(content: string, path: string, fs: FileSystem, w: World)
    returns (reply: Term, fs': FileSystem, ghost invoked: Option<Invocation>)
    ensures path !in fs' && fs' == fs - {path}
    ensures StagedOutcome(reply, invoked, content, path, w)
    ensures reply.Tuple2? && (reply.first == Atom("ok") || reply.first == Atom("error"))
  {
    invoked := None;
    // std::ofstream creates the file, or truncates the one mkstemps left
    if !w.openOk {
      fs' := fs - {path};
      reply := ErrorTuple(CharList("failed_to_open_temp_file"));
      return;
    }
    fs' := fs[path := ""];
    match w.write {
      case WriteOk =>
        fs' := fs'[path := content];
      case WriteFailed(n) =>
        fs' := fs'[path := content[..if n < |content| then n else |content|]];
        fs' := fs' - {path};
        reply := ErrorTuple(CharList("failed_to_write_temp_file"));
        return;
    }

    var command := Command(w.platform, path);
    invoked := Some(Invocation(ShellLine(w.platform, command), fs'[path]));
    var captured := ExecuteCommand(w.platform, w.run);
    fs' := fs' - {path};
    if captured.None? {
      reply := ErrorTuple(CharList("failed_to_execute_chuffed"));
      return;
    }
    reply := ClassifiedReply(captured.value, w.allocOk);
  }

  /** `create_solver_nif`: a fresh, inert handle, or `{error, allocation_failed}`. */
  method CreateSolver(allocOk: bool) returns (reply: Term)
    ensures !allocOk ==> reply == ErrorTuple(Atom("allocation_failed"))
    ensures allocOk ==>
      && reply.Tuple2? && reply.first == Atom("ok") && reply.second.Resource?
      && fresh(reply.second.handle)
      && reply.second.handle.solver == null && !reply.second.handle.initialized
  {
    if !allocOk {
      return ErrorTuple(Atom("allocation_failed"));
    }
    var h := new SolverHandle();
    reply := OkTuple(Resource(h));
  }

  /** `destroy_solver_nif`: `ok` for a solver handle, `{error, invalid_resource}` for any
      other term. It leaves the handle alone; the host's collector runs the destructor. */
  function DestroySolver(handle: Term): (reply: Term)
    ensures reply == Atom("ok") <==> handle.Resource?
    ensures !handle.Resource? ==> reply == ErrorTuple(Atom("invalid_resource"))
  {
    if handle.Resource? then Atom("ok") else ErrorTuple(Atom("invalid_resource"))
  }
}
