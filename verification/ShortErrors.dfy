/** Which line of an error is shown: `conciseDeployError` in
    internal/testdeploy/manager.go, for every error. */
module ShortErrors {
  import opened Text
  import opened RestartLog
  import opened RunReport
  import LogWindow

  /** The line says what went wrong, as the service recognises it. */
  ghost predicate Speaks(line: string) {
    exists word :: word in {"error", "failed", "spawn", "did not reach"} && Contains(ToLower(TrimSpace(line)), word)
  }

  /** The last such line. */
  ghost predicate SpeaksLast(lines: seq<string>, i: int) {
    0 <= i < |lines| && Speaks(lines[i]) && forall k :: i < k < |lines| ==> !Speaks(lines[k])
  }

  ghost predicate Silent(lines: seq<string>) {
    forall k :: 0 <= k < |lines| ==> !Speaks(lines[k])
  }

  lemma TellingMeans(line: string)
    ensures Telling(ToLower(TrimSpace(line))) <==> Speaks(line)
  {
    var words := {"error", "failed", "spawn", "did not reach"};
    assert "error" in words && "failed" in words && "spawn" in words && "did not reach" in words;
  }

  lemma {:induction false} ConciseLineExactly(lines: seq<string>, first: string)
    ensures Silent(lines) ==> ConciseLine(lines, first) == LogWindow.Truncate(TrimSpace(first), 1024)
    ensures forall i :: SpeaksLast(lines, i) ==>
        ConciseLine(lines, first) == LogWindow.Truncate(TrimSpace(lines[i]), 1024)
    decreases |lines|
  {
    if lines != [] {
      var n := |lines| - 1;
      TellingMeans(lines[n]);
      if !Speaks(lines[n]) {
        ConciseLineExactly(lines[..n], first);
        SpeaksBefore(lines);
      }
    }
  }

  lemma SpeaksBefore(lines: seq<string>)
    requires lines != [] && !Speaks(lines[|lines| - 1])
    ensures Silent(lines) <==> Silent(lines[..|lines| - 1])
    ensures forall i :: SpeaksLast(lines, i) ==>
        SpeaksLast(lines[..|lines| - 1], i) && lines[..|lines| - 1][i] == lines[i]
  {
    assert forall k :: 0 <= k < |lines| - 1 ==> lines[..|lines| - 1][k] == lines[k];
  }

  /** The short error is the last line that says what went wrong, or the first line if
      none does, without white space around it and cut to 1024 bytes. */
  lemma ConciseExactly(error: string)
    ensures Silent(SplitLines(error)) ==>
        Concise(error) == LogWindow.Truncate(TrimSpace(SplitLines(error)[0]), 1024)
    ensures forall i :: SpeaksLast(SplitLines(error), i) ==>
        Concise(error) == LogWindow.Truncate(TrimSpace(SplitLines(error)[i]), 1024)
  {
    ConciseLineExactly(SplitLines(error), SplitLines(error)[0]);
  }

  /** The error of a failed command: its cause, and the trimmed output if there is any. */
  lemma FailureTextMeans(cause: string, output: string)
    ensures TrimSpace(output) == "" ==> FailureText(cause, output) == "deploy command failed: " + cause
    ensures TrimSpace(output) != "" ==>
        FailureText(cause, output) == "deploy command failed: " + (cause + ("\n" + TrimSpace(output)))
    ensures Returned(output, true) == if TrimSpace(output) == "" then "" else output
    ensures Returned(output, false) == output
  {
  }
}
