/** Running the solver executable (c_src/chuffed_solver.cpp:163-195, 248-253): the command
    line, the shell line handed to popen, the arguments the shell passes on from it, and how
    the status popen's partner returns is turned into an exit code. What the child prints and how it ends are inputs. */
module Process {
  import opened Wrappers
  import opened ScratchPath

  /** The command that runs the solver on the scratch file; Windows quotes the path so that
      a directory with spaces stays one argument. */
  function Command(platform: Platform, path: string): (c: string)
    ensures |c| >= 8 && c[..8] == "chuffed "
    ensures platform == Posix ==> c[8..] == path
    ensures platform == Windows ==>
      |c| == |path| + 10 && c[8] == '"' && c[|c| - 1] == '"' && c[9..|c| - 1] == path
  {
    match platform
    case Posix => "chuffed " + path
    case Windows => "chuffed \"" + path + "\""
  }

  const CmdHead: string := "cmd.exe /c "
  const Redirect: string := "2>&1"

  /** The line given to popen: standard error joins standard output, and on Windows the
      whole line runs under "cmd.exe /c". */
  function ShellLine(platform: Platform, command: string): (line: string)
    ensures platform == Posix ==>
      |line| == |command| + 5 && line[..|command|] == command && line[|command|..] == " " + Redirect
    ensures platform == Windows ==>
      && |line| == |CmdHead| + |command| + 7
      && line[..|CmdHead|] == CmdHead && line[|CmdHead|] == '"'
      && line[|CmdHead| + 1..|line| - 6] == command
      && line[|line| - 6..] == " " + Redirect + "\""
  {
    match platform
    case Posix => command + " 2>&1"
    case Windows => "cmd.exe /c \"" + command + " 2>&1\""
  }

  /** The characters the model treats as word breaks. The C runtime's argument parser
      splits on space and tab only; for sh a newline also ends the command. */
  predicate IsBlank(c: char)
  {
    c == ' ' || c == '\t' || c == '\n'
  }

  /** Splitting a command text into words, as sh and the C runtime both do for a text with
      no backslash, single quote or expansion: a blank outside double quotes ends the word,
      a double quote switches quoting and is dropped, and a quoted empty text is still a
      word. `cur` is the word read so far and `open` whether one has begun. */
  function WordsFrom(s: string, quoted: bool, cur: string, open: bool): seq<string>
    decreases |s|
  {
    if s == [] then (if open then [cur] else [])
    else if s[0] == '"' then WordsFrom(s[1..], !quoted, cur, true)
    else if IsBlank(s[0]) && !quoted then (if open then [cur] else []) + WordsFrom(s[1..], false, [], false)
    else WordsFrom(s[1..], quoted, cur + [s[0]], true)
  }

  function Words(s: string): seq<string>
  {
    WordsFrom(s, false, [], false)
  }

  /** The shell carries out the trailing redirection itself; it is no argument of the
      program. */
  function WithoutRedirect(words: seq<string>): seq<string>
  {
    if words != [] && words[|words| - 1] == Redirect then words[..|words| - 1] else words
  }

  /** What `cmd.exe /c` runs: the text after the switch, and when that opens with a double
      quote, without that quote and without the last double quote of the line. */
  function CmdCommand(line: string): Option<string>
  {
    if |line| < |CmdHead| || line[..|CmdHead|] != CmdHead then None
    else
      var rest := line[|CmdHead|..];
      if rest == [] || rest[0] != '"' then Some(rest)
      else
        var body := rest[1..];
        match LastIndexOf(body, '"')
        case None => Some(body)
        case Some(k) => Some(body[..k] + body[k + 1..])
  }

  /** Characters cmd.exe acts on outside double quotes whatever its environment holds: `&`
      and `|` separate commands, `<` and `>` redirect, `^` escapes the next character, and a
      line break ends the command. `%` is not one of them: cmd.exe replaces `%name%` only
      when `name` is a defined variable and leaves a lone `%` as it is. */
  predicate IsCmdSpecial(c: char)
  {
    c == '^' || c == '&' || c == '|' || c == '<' || c == '>' || c == '\n' || c == '\r'
  }

  predicate CmdPlain(s: string)
  {
    forall i :: 0 <= i < |s| ==> !IsCmdSpecial(s[i])
  }

  /** The characters of `s` that stand outside double quotes, the quotes dropped; `quoted`
      says whether a quote is open at the start. */
  function Unquoted(s: string, quoted: bool): string
    decreases |s|
  {
    if s == [] then []
    else if s[0] == '"' then Unquoted(s[1..], !quoted)
    else (if quoted then [] else [s[0]]) + Unquoted(s[1..], quoted)
  }

  /** `_popen` runs its line under `%COMSPEC% /c`, so a Windows line meets cmd.exe twice.
      The outer cmd.exe strips nothing (its text after the switch does not open with a
      quote) and hands the line on unchanged when it finds no special character outside
      quotes and expands no variable. */
  predicate PassesOuterCmd(line: string)
  {
    CmdPlain(Unquoted(line, false))
  }

  /** The arguments the solver receives from a shell line: sh splits the POSIX line. On
      Windows the line must pass the outer cmd.exe of `_popen` unchanged (`None`: it does
      not, and the command that runs is some other one); the inner cmd.exe then unwraps its
      command and the C runtime splits what it runs. Both cmd.exe layers are taken to
      expand no variable, which is sure for a line without `%`; which variables a `%name%`
      could name is the environment's business and is not modelled. */
  function SolverArguments(platform: Platform, line: string): Option<seq<string>>
  {
    match platform
    case Posix => Some(WithoutRedirect(Words(line)))
    case Windows =>
      if !PassesOuterCmd(line) then None
      else
        match CmdCommand(line)
        case None => None
        case Some(command) => Some(WithoutRedirect(Words(command)))
  }

  /** No blank and no double quote: text that can never end or start a word of its own. */
  predicate Unbroken(s: string)
  {
    forall i :: 0 <= i < |s| ==> !IsBlank(s[i]) && s[i] != '"'
  }

  /** Text without double quotes, and without blanks unless quoted, joins the word being
      read. */
  lemma {:induction false} WordsAbsorb(w: string, rest: string, quoted: bool, cur: string, open: bool)
    requires forall i :: 0 <= i < |w| ==> w[i] != '"' && (quoted || !IsBlank(w[i]))
    ensures WordsFrom(w + rest, quoted, cur, open) == WordsFrom(rest, quoted, cur + w, open || w != [])
  {
    if w == [] {
      assert w + rest == rest && cur + w == cur;
    } else {
      assert (w + rest)[0] == w[0];
      assert (w + rest)[1..] == w[1..] + rest;
      WordsAbsorb(w[1..], rest, quoted, cur + [w[0]], true);
      assert cur + [w[0]] + w[1..] == cur + w;
    }
  }

  /** An unquoted blank ends the word being read. */
  lemma WordsAtBlank(rest: string, cur: string, open: bool)
    ensures WordsFrom(" " + rest, false, cur, open) == (if open then [cur] else []) + WordsFrom(rest, false, [], false)
  {
    assert (" " + rest)[1..] == rest;
  }

  /** A double quote switches quoting and opens a word. */
  lemma WordsAtQuote(rest: string, quoted: bool, cur: string, open: bool)
    ensures WordsFrom("\"" + rest, quoted, cur, open) == WordsFrom(rest, !quoted, cur, true)
  {
    assert ("\"" + rest)[1..] == rest;
  }

  /** An unbroken word followed by a blank is the first word. */
  lemma {:induction false} WordsOfWordThenBlank(w: string, rest: string)
    requires w != [] && Unbroken(w)
    ensures Words(w + (" " + rest)) == [w] + Words(rest)
  {
    WordsAbsorb(w, " " + rest, false, [], false);
    assert [] + w == w;
    WordsAtBlank(rest, w, true);
  }

  /** An unbroken word alone is the only word. */
  lemma {:induction false} WordsOfWord(w: string)
    requires w != [] && Unbroken(w)
    ensures Words(w) == [w]
  {
    assert w + [] == w;
    WordsAbsorb(w, [], false, [], false);
    assert [] + w == w;
  }

  /** A double-quoted text followed by a blank is the first word, blanks included, when it
      holds no double quote. */
  lemma {:induction false} WordsOfQuotedThenBlank(q: string, rest: string)
    requires forall i :: 0 <= i < |q| ==> q[i] != '"'
    ensures Words("\"" + (q + ("\"" + (" " + rest)))) == [q] + Words(rest)
  {
    WordsAtQuote(q + ("\"" + (" " + rest)), false, [], false);
    WordsAbsorb(q, "\"" + (" " + rest), true, [], true);
    assert [] + q == q;
    WordsAtQuote(" " + rest, true, q, true);
    WordsAtBlank(rest, q, true);
  }

  /** The fixed words of the command lines are unbroken. */
  lemma FixedWordsUnbroken()
    ensures Unbroken("chuffed") && Unbroken(Redirect)
  {
  }

  /** The POSIX shell line, piece by piece. */
  lemma PosixLineShape(path: string)
    ensures ShellLine(Posix, Command(Posix, path)) == "chuffed" + (" " + (path + (" " + Redirect)))
  {
  }

  /** A closing double quote at the end is the last one. */
  lemma LastQuoteAtEnd(t: string)
    ensures LastIndexOf(t + "\"", '"') == Some(|t|)
  {
  }

  /** cmd.exe unwraps a command given in double quotes. */
  lemma {:induction false} CmdUnwraps(t: string)
    ensures CmdCommand(CmdHead + ("\"" + (t + "\""))) == Some(t)
  {
    var line := CmdHead + ("\"" + (t + "\""));
    var body := t + "\"";
    assert line[..|CmdHead|] == CmdHead;
    assert line[|CmdHead|..] == "\"" + body;
    assert ("\"" + body)[1..] == body;
    LastQuoteAtEnd(t);
    assert body[..|t|] + body[|t| + 1..] == t;
  }

  /** The Windows shell line, piece by piece. */
  lemma WindowsLineShape(path: string)
    ensures ShellLine(Windows, Command(Windows, path))
         == CmdHead + ("\"" + (("chuffed" + (" " + ("\"" + (path + ("\"" + (" " + Redirect)))))) + "\""))
  {
  }

  /** Text without double quotes joins the part outside quotes when none is open, and
      vanishes when one is. */
  lemma {:induction false} UnquotedSkips(w: string, rest: string, quoted: bool)
    requires forall i :: 0 <= i < |w| ==> w[i] != '"'
    ensures Unquoted(w + rest, quoted) == (if quoted then [] else w) + Unquoted(rest, quoted)
    decreases |w|
  {
    if w == [] {
      assert w + rest == rest;
    } else {
      assert (w + rest)[0] == w[0];
      assert (w + rest)[1..] == w[1..] + rest;
      UnquotedSkips(w[1..], rest, quoted);
      if !quoted {
        assert [w[0]] + (w[1..] + Unquoted(rest, quoted)) == w + Unquoted(rest, quoted);
      }
    }
  }

  /** A double quote switches quoting. */
  lemma UnquotedAtQuote(rest: string, quoted: bool)
    ensures Unquoted("\"" + rest, quoted) == Unquoted(rest, !quoted)
  {
    assert ("\"" + rest)[1..] == rest;
  }

  lemma CmdPlainAppend(a: string, b: string)
    ensures CmdPlain(a + b) <==> CmdPlain(a) && CmdPlain(b)
  {
    if CmdPlain(a + b) {
      forall i | 0 <= i < |a| ensures !IsCmdSpecial(a[i]) {
        assert a[i] == (a + b)[i];
      }
      forall i | 0 <= i < |b| ensures !IsCmdSpecial(b[i]) {
        assert b[i] == (a + b)[|a| + i];
      }
    }
  }

  lemma FixedTextsPlain()
    ensures CmdPlain(CmdHead)
    ensures forall i :: 0 <= i < |"chuffed "| ==> "chuffed "[i] != '"'
    ensures forall i :: 0 <= i < |" 2>&1"| ==> " 2>&1"[i] != '"'
    ensures forall i :: 0 <= i < |CmdHead| ==> CmdHead[i] != '"'
  {
  }

  lemma FixedTextsExpandNothing()
    ensures '%' !in CmdHead && '%' !in "chuffed " && '%' !in " 2>&1" && '%' !in "\""
  {
  }

  /** A percent sign in the Windows line can only come from the path. */
  lemma PercentInWindowsLine(path: string)
    ensures '%' in ShellLine(Windows, Command(Windows, path)) <==> '%' in path
  {
    WindowsLineQuotes(path);
    FixedTextsExpandNothing();
  }

  /** The Windows shell line, grouped by where its double quotes fall. */
  lemma WindowsLineQuotes(path: string)
    ensures ShellLine(Windows, Command(Windows, path))
         == CmdHead + ("\"" + ("chuffed " + ("\"" + (path + ("\"" + (" 2>&1" + "\""))))))
  {
  }

  /** The outer cmd.exe of `_popen` finds the path, and only the path, outside quotes: the
      quotes of the Windows command surround everything else. */
  lemma {:induction false} UnquotedWindowsLine(path: string)
    requires forall i :: 0 <= i < |path| ==> path[i] != '"'
    ensures Unquoted(ShellLine(Windows, Command(Windows, path)), false) == CmdHead + path
  {
    WindowsLineQuotes(path);
    FixedTextsPlain();
    var tail := "\"" + (" 2>&1" + "\"");
    UnquotedAtQuote(" 2>&1" + "\"", false);
    UnquotedSkips(" 2>&1", "\"", true);
    UnquotedAtQuote([], true);
    assert "\"" + [] == "\"";
    assert Unquoted(tail, false) == [];
    UnquotedSkips(path, tail, false);
    UnquotedAtQuote(path + tail, true);
    UnquotedSkips("chuffed ", "\"" + (path + tail), true);
    UnquotedAtQuote("chuffed " + ("\"" + (path + tail)), false);
    UnquotedSkips(CmdHead, "\"" + ("chuffed " + ("\"" + (path + tail))), false);
    assert path + [] == path;
  }

  /** The Windows line passes the outer cmd.exe unchanged exactly when the path holds none
      of cmd.exe's special characters. */
  lemma {:induction false} WindowsLinePassesOuterCmd(path: string)
    requires forall i :: 0 <= i < |path| ==> path[i] != '"'
    ensures PassesOuterCmd(ShellLine(Windows, Command(Windows, path))) <==> CmdPlain(path)
  {
    UnquotedWindowsLine(path);
    FixedTextsPlain();
    CmdPlainAppend(CmdHead, path);
  }

  /** The command cmd.exe runs for the Windows shell line: the outer quotes are gone. */
  lemma {:induction false} WindowsCommandShape(path: string)
    ensures CmdCommand(ShellLine(Windows, Command(Windows, path)))
         == Some("chuffed" + (" " + ("\"" + (path + ("\"" + (" " + Redirect))))))
  {
    WindowsLineShape(path);
    CmdUnwraps("chuffed" + (" " + ("\"" + (path + ("\"" + (" " + Redirect))))));
  }

  /** On POSIX the solver receives the path as its one argument when the path has no blank
      and no double quote. */
  lemma {:induction false} PosixPathIsOneArgument(path: string)
    requires path != [] && Unbroken(path)
    ensures SolverArguments(Posix, ShellLine(Posix, Command(Posix, path))) == Some(["chuffed", path])
  {
    PosixLineShape(path);
    FixedWordsUnbroken();
    WordsOfWordThenBlank("chuffed", path + (" " + Redirect));
    WordsOfWordThenBlank(path, Redirect);
    WordsOfWord(Redirect);
    assert ["chuffed"] + ([path] + [Redirect]) == ["chuffed", path, Redirect];
    assert ["chuffed", path, Redirect][..2] == ["chuffed", path];
  }

  /** On POSIX an unquoted blank splits the path: the solver would receive two arguments. */
  lemma {:induction false} PosixBlankSplitsPath(front: string, back: string)
    requires front != [] && back != [] && Unbroken(front) && Unbroken(back)
    ensures SolverArguments(Posix, ShellLine(Posix, Command(Posix, front + " " + back))) == Some(["chuffed", front, back])
  {
    PosixLineShape(front + " " + back);
    assert (front + " " + back) + (" " + Redirect) == front + (" " + (back + (" " + Redirect)));
    FixedWordsUnbroken();
    WordsOfWordThenBlank("chuffed", front + (" " + (back + (" " + Redirect))));
    WordsOfWordThenBlank(front, back + (" " + Redirect));
    WordsOfWordThenBlank(back, Redirect);
    WordsOfWord(Redirect);
    assert ["chuffed"] + ([front] + ([back] + [Redirect])) == ["chuffed", front, back, Redirect];
    assert ["chuffed", front, back, Redirect][..3] == ["chuffed", front, back];
  }

  /** On Windows the quotes keep the path one argument, blanks included, whenever it holds no
      double quote (which Windows file names cannot) and none of cmd.exe's special
      characters. */
  lemma {:induction false} WindowsPathIsOneArgument(path: string)
    requires forall i :: 0 <= i < |path| ==> path[i] != '"'
    requires CmdPlain(path)
    ensures SolverArguments(Windows, ShellLine(Windows, Command(Windows, path))) == Some(["chuffed", path])
  {
    WindowsLinePassesOuterCmd(path);
    WindowsCommandShape(path);
    FixedWordsUnbroken();
    WordsOfWordThenBlank("chuffed", "\"" + (path + ("\"" + (" " + Redirect))));
    WordsOfQuotedThenBlank(path, Redirect);
    WordsOfWord(Redirect);
    assert ["chuffed"] + ([path] + [Redirect]) == ["chuffed", path, Redirect];
    assert ["chuffed", path, Redirect][..2] == ["chuffed", path];
  }

  /** On Windows a path holding one of cmd.exe's special characters does not reach the
      solver: the outer cmd.exe of `_popen` sees the path outside quotes and acts on that
      character (`C:\A&B\...` runs the command `B\...` after the first one). */
  lemma {:induction false} WindowsCmdSpecialBreaksLine(path: string)
    requires forall i :: 0 <= i < |path| ==> path[i] != '"'
    requires !CmdPlain(path)
    ensures SolverArguments(Windows, ShellLine(Windows, Command(Windows, path))) == None
  {
    WindowsLinePassesOuterCmd(path);
  }

  /** The POSIX scratch path `/tmp/chuffed_<token>.fzn` reaches the solver as one argument. */
  lemma {:induction false} PosixScratchPathIsOneArgument(token: string)
    requires IsToken(token)
    ensures var path := "/tmp/chuffed_" + token + ".fzn";
      SolverArguments(Posix, ShellLine(Posix, Command(Posix, path))) == Some(["chuffed", path])
  {
    var head, tail := "/tmp/chuffed_", ".fzn";
    var path := head + token + tail;
    forall i | 0 <= i < |path|
      ensures !IsBlank(path[i]) && path[i] != '"'
    {
      if i < |head| {
        assert path[i] == head[i];
      } else if i < |head| + |token| {
        assert path[i] == token[i - |head|];
        assert IsAlphanumeric(token[i - |head|]);
      } else {
        assert path[i] == tail[i - |head| - |token|];
      }
    }
    PosixPathIsOneArgument(path);
  }

  /** The Windows scratch path `<dir>CHF<unique>.fzn` reaches the solver as one argument,
      whatever blanks the temp directory holds, exactly when the directory holds none of
      cmd.exe's special characters; otherwise it does not reach the solver at all. The line
      holds a `%`, which cmd.exe might expand, only where the directory does. */
  lemma {:induction false} WindowsScratchPathIsOneArgument(dir: string, unique: string)
    requires forall i :: 0 <= i < |dir| ==> dir[i] != '"'
    requires IsHexNumber(unique)
    ensures var path := dir + "CHF" + unique + ".fzn";
      SolverArguments(Windows, ShellLine(Windows, Command(Windows, path))) == Some(["chuffed", path])
      <==> CmdPlain(dir)
    ensures var path := dir + "CHF" + unique + ".fzn";
      !CmdPlain(dir) ==> SolverArguments(Windows, ShellLine(Windows, Command(Windows, path))) == None
    ensures var path := dir + "CHF" + unique + ".fzn";
      '%' in ShellLine(Windows, Command(Windows, path)) <==> '%' in dir
  {
    var mid, tail := "CHF", ".fzn";
    var path := dir + mid + unique + tail;
    forall i | 0 <= i < |path|
      ensures path[i] != '"'
    {
      if i < |dir| {
        assert path[i] == dir[i];
      } else if i < |dir| + |mid| {
        assert path[i] == mid[i - |dir|];
      } else if i < |dir| + |mid| + |unique| {
        assert path[i] == unique[i - |dir| - |mid|];
        assert IsUpperHexDigit(unique[i - |dir| - |mid|]);
      } else {
        assert path[i] == tail[i - |dir| - |mid| - |unique|];
      }
    }
    assert CmdPlain(unique) by {
      forall i | 0 <= i < |unique| ensures !IsCmdSpecial(unique[i]) {
        assert IsUpperHexDigit(unique[i]);
      }
    }
    assert CmdPlain(mid) && CmdPlain(tail);
    CmdPlainAppend(dir, mid);
    CmdPlainAppend(dir + mid, unique);
    CmdPlainAppend(dir + mid + unique, tail);
    assert '%' !in unique && '%' !in mid && '%' !in tail;
    PercentInWindowsLine(path);
    if CmdPlain(dir) {
      WindowsPathIsOneArgument(path);
    } else {
      WindowsCmdSpecialBreaksLine(path);
    }
  }

  /** `WEXITSTATUS`: bits 8 to 15 of a wait status. Dafny's `/` and `%` round towards
      negative infinity here, which is exactly the two's-complement bit extraction. */
  function WExitStatus(status: int): (code: int)
    ensures 0 <= code <= 255
  {
    (status / 256) % 256
  }

  /** A child that exits with `code` reports the wait status `code * 256`: it counts as
      exited, and WEXITSTATUS recovers the code. */
  lemma WExitStatusOfExit(code: int)
    requires 0 <= code <= 255
    ensures WIfExited(code * 256)
    ensures WExitStatus(code * 256) == code
  {
  }

  /** `WTERMSIG`: the low seven bits of the status, the number of the signal that ended the
      child. */
  function WTermSig(status: int): (sig: int)
    ensures 0 <= sig < 128
    ensures (status - sig) % 128 == 0
  {
    status % 128
  }

  /** `WIFEXITED`: the child exited normally exactly when no signal number is recorded. */
  predicate WIfExited(status: int)
    ensures WIfExited(status) <==> WTermSig(status) == 0
  {
    status % 128 == 0
  }

  /** As written, a child killed by a signal (status = signal number, bits 8-15 clear)
      reads as exit code 0, and the classifier then reports success whatever it printed. */
  lemma SignalledChildReadsAsExitZero(signal: int)
    requires 1 <= signal <= 127
    ensures !WIfExited(signal) && WTermSig(signal) == signal
    ensures WExitStatus(signal) == 0
  {
  }

  /** The exit code of a wait status with WIFEXITED checked first: the exit status for a
      normal exit, 128 plus the signal number (the shell's convention) otherwise. */
  function ExitCodeOf(status: int): (code: int)
    ensures 0 <= code <= 255
    ensures code == 0 <==> WIfExited(status) && WExitStatus(status) == 0
    ensures WIfExited(status) ==> code == WExitStatus(status)
    ensures !WIfExited(status) ==> code > 128
  {
    if WIfExited(status) then WExitStatus(status) else 128 + WTermSig(status)
  }

  /** How the child ran: popen failed, or it ran, the bridge read `output` from the pipe
      (standard output and standard error together) and the pclose call returned `closeStatus`. */
  datatype PipeOutcome = PopenFailed | Closed(output: string, closeStatus: int)

  datatype Captured = Captured(output: string, exitCode: int)

  /** `execute_command`: fails when popen fails or pclose returns -1; otherwise the captured
      output and the exit code. On Windows `_pclose` already returns the exit code; on
      POSIX the wait status is decoded. */
  function ExecuteCommand(platform: Platform, run: PipeOutcome): (r: Option<Captured>)
    ensures r.None? <==> run.PopenFailed? || run.closeStatus == -1
    ensures r.Some? ==> r.value.output == run.output
    ensures r.Some? && platform == Windows ==> r.value.exitCode == run.closeStatus
    ensures r.Some? && platform == Posix ==>
      && 0 <= r.value.exitCode <= 255
      && (r.value.exitCode == 0 <==> WIfExited(run.closeStatus) && WExitStatus(run.closeStatus) == 0)
  {
    match run
    case PopenFailed => None
    case Closed(output, status) =>
      if status == -1 then None
      else
        match platform
        case Windows => Some(Captured(output, status))
        case Posix => Some(Captured(output, ExitCodeOf(status)))
  }
}
