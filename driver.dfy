/** The standalone driver (c_src/chuffed_cnode_simple.sync-conflict-20251110-224858-6ZCFETH.cpp):
    reads a FlatZinc program from standard input, runs the embedded engine on it and writes
    one result block, `ok\n<solution>` on standard output with exit code 0 or
    `error\n<reason>\n` on standard error with exit code 1. Standard input is the text it
    holds; what the engine does with the program is an input (`Parse`). */
module Driver {

  /** The engine's terminal status, the `RESULT` enum of the engine's headers. */
  datatype Status = ResUnknown | ResGlobalUnsat | ResLocalUnsat | ResSat | ResSearching

  /** An exception escaping the engine: a `std::exception` with its `what()` text, or
      anything else. */
  datatype Exception = StdException(what: string) | OtherException

  /** How `engine.solve` ended. */
  datatype Solve = Finished(status: Status, solution: string) | SolveThrew(e: Exception)

  /** How parsing ended: a problem that was then solved, a null problem, or an exception
      (from option parsing or the parser). */
  datatype Parse = Parsed(solve: Solve) | ParsedNull | ParseThrew(e: Exception)

  /** What one run of the driver leaves behind. */
  datatype Run = Run(stdout: string, stderr: string, exitCode: int)

  const NoContent: string := "No FlatZinc content provided"
  const ParseFailure: string := "Failed to parse FlatZinc problem"
  const Unsatisfiable: string := "UNSATISFIABLE"
  const NoSolution: string := "No solution found"
  const UnknownException: string := "Unknown exception"

  /** A success: "ok", a newline and the solution text, flushed to standard output. */
  function Succeed(solution: string): Run
  {
    Run("ok\n" + solution, "", 0)
  }

  /** A failure: "error", a newline, the reason and `std::endl` on standard error. */
  function Fail(reason: string): Run
  {
    Run("", "error\n" + reason + "\n", 1)
  }

  /** Exactly one result block was written: an ok block on standard output and nothing on
      standard error with exit code 0, or an error block on standard error and nothing on
      standard output with exit code 1. */
  predicate OneBlock(r: Run)
  {
    || (r.exitCode == 0 && r.stderr == [] && |r.stdout| >= 3 && r.stdout[..3] == "ok\n")
    || (r.exitCode == 1 && r.stdout == [] && |r.stderr| >= 7 && r.stderr[..6] == "error\n"
        && r.stderr[|r.stderr| - 1] == '\n')
  }

  predicate IsUnsat(s: Status)
  {
    s == ResLocalUnsat || s == ResGlobalUnsat
  }

  /** The terminal-status decision tree: SAT reports the solution; local or global
      unsatisfiability reports UNSATISFIABLE even when a solution text exists; any other
      status reports the solution when there is one and "No solution found" otherwise. */
  function Report(status: Status, solution: string): (r: Run)
    ensures OneBlock(r)
    ensures r.exitCode == 0 <==> status == ResSat || (!IsUnsat(status) && solution != [])
    ensures r.exitCode == 0 ==> r.stdout[3..] == solution
    ensures IsUnsat(status) ==> r == Fail(Unsatisfiable)
    ensures status != ResSat && !IsUnsat(status) && solution == [] ==> r == Fail(NoSolution)
  {
    if status == ResSat then Succeed(solution)
    else if IsUnsat(status) then Fail(Unsatisfiable)
    else if solution == [] then Fail(NoSolution)
    else Succeed(solution)
  }

  /** The two catch arms: the exception's own message, or "Unknown exception". */
  function Caught(e: Exception): (r: Run)
    ensures OneBlock(r) && r.exitCode == 1
    ensures e.StdException? ==> r.stderr == "error\n" + e.what + "\n"
    ensures e.OtherException? ==> r.stderr == "error\n" + UnknownException + "\n"
  {
    match e
    case StdException(what) => Fail(what)
    case OtherException => Fail(UnknownException)
  }

  /** Everything after the empty-input check: parse, null check, solve, report; an
      exception anywhere in it is caught before anything was written. */
  function Respond(p: Parse): (r: Run)
    ensures OneBlock(r)
    ensures r.exitCode == 0 <==>
      p.Parsed? && p.solve.Finished?
      && (p.solve.status == ResSat || (!IsUnsat(p.solve.status) && p.solve.solution != []))
    ensures p.ParsedNull? ==> r == Fail(ParseFailure)
    ensures p.ParseThrew? ==> r == Caught(p.e)
    ensures p.Parsed? && p.solve.SolveThrew? ==> r == Caught(p.solve.e)
    ensures p.Parsed? && p.solve.Finished? ==> r == Report(p.solve.status, p.solve.solution)
  {
    match p
    case ParseThrew(e) => Caught(e)
    case ParsedNull => Fail(ParseFailure)
    case Parsed(SolveThrew(e)) => Caught(e)
    case Parsed(Finished(status, solution)) => Report(status, solution)
  }

  /** The text with a final newline added when it is non-empty and lacks one. */
  function Terminated(s: string): (t: string)
    ensures |t| == 0 <==> |s| == 0
    ensures t != [] ==> t[|t| - 1] == '\n'
    ensures s <= t && |t| <= |s| + 1
    ensures s == [] || s[|s| - 1] == '\n' ==> t == s
    ensures s != [] && s[|s| - 1] != '\n' ==> t == s + "\n"
  {
    if s == [] || s[|s| - 1] == '\n' then s else s + "\n"
  }

  /** The lines joined back, each followed by a newline. */
  function JoinLines(lines: seq<string>): string
  {
    if lines == [] then [] else JoinLines(lines[..|lines| - 1]) + lines[|lines| - 1] + "\n"
  }

  /** Where the line starting at `from` ends: the next newline, or the end of the input. */
  function LineEnd(s: string, from: nat): (j: nat)
    requires from <= |s|
    decreases |s| - from
    ensures from <= j <= |s|
    ensures j < |s| ==> s[j] == '\n'
    ensures forall k :: from <= k < j ==> s[k] != '\n'
  {
    if from == |s| || s[from] == '\n' then from else LineEnd(s, from + 1)
  }

  /** The `while (std::getline(std::cin, line))` loop: each line, without its newline,
      is appended followed by "\n". The result is the input with a newline added when
      the last line lacks one, it is empty exactly when no line was read, and a non-empty
      result always ends in a newline, so the fix-up after the loop never fires. */
  method ReadProgram(input: string) returns (content: string, ghost lines: seq<string>)
    ensures content == JoinLines(lines)
    ensures forall k :: 0 <= k < |lines| ==> '\n' !in lines[k]
    ensures content == Terminated(input)
    ensures content == [] <==> |lines| == 0
    ensures content != [] ==> content[|content| - 1] == '\n'
  {
    content, lines := [], [];
    var pos := 0;
    while pos < |input|
      invariant pos <= |input|
      invariant content == JoinLines(lines)
      invariant forall k :: 0 <= k < |lines| ==> '\n' !in lines[k]
      invariant pos < |input| ==> content == input[..pos]
      invariant pos == |input| ==>
        content == if input == [] || input[|input| - 1] == '\n' then input else input + "\n"
      invariant |lines| == 0 <==> pos == 0
      decreases |input| - pos
    {
      ReadLine(input, pos);
      var j := LineEnd(input, pos);
      var line := input[pos..j];
      assert (lines + [line])[..|lines|] == lines;
      content := content + line + "\n";
      lines := lines + [line];
      if j < |input| {
        assert j + 1 == |input| ==> input[..j + 1] == input;
        pos := j + 1;
      } else {
        pos := |input|;
      }
    }
    assert content == Terminated(input);
  }

  /** One pass of the loop: the next line holds no newline, and the text read so far, that
      line and a newline are the input up to the next line, or the whole input with the
      missing final newline. */
  lemma ReadLine(input: string, pos: nat)
    requires pos < |input|
    ensures var j := LineEnd(input, pos);
      && '\n' !in input[pos..j]
      && (j < |input| ==> input[..pos] + input[pos..j] + "\n" == input[..j + 1] && input[j] == '\n')
      && (j == |input| ==> input[|input| - 1] != '\n' && input[..pos] + input[pos..j] + "\n" == input + "\n")
  {
    var j := LineEnd(input, pos);
    var line := input[pos..j];
    assert forall k :: 0 <= k < |line| ==> line[k] == input[pos + k];
    if j < |input| {
      assert input[..j + 1] == input[..pos] + line + "\n";
    } else {
      assert input == input[..pos] + line;
    }
  }

  /** `main`: read the program, reject an empty one, then run the engine and report.
      `submitted` is the text handed to the parser. */
  method RunDriver(input: string, engine: Parse) returns (r: Run, ghost submitted: string)
    ensures OneBlock(r)
    ensures r.exitCode == 0 <==> r.stdout != []
    ensures r.exitCode == 0 ==> r.stderr == []
    ensures input == [] ==> r == Fail(NoContent)
    ensures input != [] ==> r == Respond(engine)
    ensures input != [] ==> submitted == Terminated(input) && submitted[|submitted| - 1] == '\n'
  {
    var content, lines := ReadProgram(input);
    if content != [] && content[|content| - 1] != '\n' {
      content := content + "\n";
    }
    submitted := content;
    if content == [] {
      return Fail(NoContent), submitted;
    }
    r := Respond(engine);
  }
}
