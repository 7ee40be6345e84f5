/** The result classifier of the native extension (c_src/chuffed_solver.cpp:269-281): a
    run is a success when the solver exited with status 0 or printed the FlatZinc solution
    terminator, and the captured output is handed back unchanged either way. */
module Classifier {
  import opened Wrappers

  /** The line FlatZinc output places after each solution. */
  const SolutionTerminator: string := "=========="

  /** True when `pat` occurs in `s` starting at index `i`. */
  predicate OccursAt(s: string, pat: string, i: nat)
  {
    i + |pat| <= |s| && s[i..i + |pat|] == pat
  }

  predicate Contains(s: string, pat: string)
  {
    exists i: nat :: i <= |s| && OccursAt(s, pat, i)
  }

  /** `std::string::find(pat, from)`: the first index at or after `from` where `pat`
      occurs, or nothing (`npos`). */
  function FindFrom(s: string, pat: string, from: nat): (r: Option<nat>)
    decreases |s| - from
    ensures r.Some? ==> from <= r.value && OccursAt(s, pat, r.value)
    ensures forall i: nat :: from <= i && (r.None? || i < r.value) ==> !OccursAt(s, pat, i)
  {
    if from + |pat| > |s| then None
    else if s[from..from + |pat|] == pat then Some(from)
    else FindFrom(s, pat, from + 1)
  }

  /** `std::string::find(pat)`: finds something exactly when `pat` occurs, and then its
      first occurrence. */
  function Find(s: string, pat: string): (r: Option<nat>)
    ensures r.Some? <==> Contains(s, pat)
    ensures r.Some? ==> OccursAt(s, pat, r.value)
    ensures r.Some? ==> forall i: nat :: i < r.value ==> !OccursAt(s, pat, i)
  {
    FindFrom(s, pat, 0)
  }

  datatype Tag = Ok | Error

  /** The classification of a run and the text carried back with it. */
  datatype Tagged = Tagged(tag: Tag, payload: string)

  /** Tag `Ok` exactly when the exit code is 0 or the output holds the solution
      terminator; the payload is the output as captured. */
  function Classify(exitCode: int, output: string): (r: Tagged)
    ensures r.payload == output
    ensures r.tag == Ok <==> exitCode == 0 || Contains(output, SolutionTerminator)
    ensures r.tag == Error <==> exitCode != 0 && !Contains(output, SolutionTerminator)
  {
    if exitCode == 0 || Find(output, SolutionTerminator).Some? then Tagged(Ok, output)
    else Tagged(Error, output)
  }

  /** FlatZinc's unsatisfiability banner is not a solution terminator: it holds runs of at
      most five '=', so a run that prints it is classified by its exit code alone. */
  lemma {:induction false} UnsatBannerIsNoTerminator(exitCode: int)
    ensures !Contains("=====UNSATISFIABLE=====\n", SolutionTerminator)
    ensures Classify(exitCode, "=====UNSATISFIABLE=====\n").tag == Ok <==> exitCode == 0
  {
    var banner := "=====UNSATISFIABLE=====\n";
    forall i: nat | i <= |banner|
      ensures !OccursAt(banner, SolutionTerminator, i)
    {
      if i + 10 <= |banner| {
        var k := if i < 5 then 5 else i;
        assert banner[k] != '=';
        assert banner[i..i + 10][k - i] == banner[k];
      }
    }
  }
}
