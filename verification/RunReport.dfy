/** What is reported about a failed command: the error of `commandRunner.Run` in
    internal/testdeploy/service.go, and its short form, `conciseDeployError` in
    internal/testdeploy/manager.go. */
module RunReport {
  import opened Text
  import LogWindow
  import OutputCapture
  import opened RestartLog

  const MAX_ERROR_BYTES: nat := 1024

  /** The output that Run returns. */
  function Returned(output: string, failed: bool): string {
    if failed && TrimSpace(output) == "" then "" else output
  }

  /** The error that Run returns for a failed command. */
  function FailureText(cause: string, output: string): string {
    "deploy command failed: " + cause + (if TrimSpace(output) == "" then "" else "\n" + TrimSpace(output))
  }

  predicate Telling(line: string) {
    Contains(line, "error") || Contains(line, "failed") || Contains(line, "spawn") || Contains(line, "did not reach")
  }

  /** The last telling line of an error, or its first line. */
  function ConciseLine(lines: seq<string>, first: string): string {
    if lines == [] then LogWindow.Truncate(TrimSpace(first), MAX_ERROR_BYTES)
    else
      var line := TrimSpace(lines[|lines| - 1]);
      if Telling(ToLower(line)) then LogWindow.Truncate(line, MAX_ERROR_BYTES)
      else ConciseLine(lines[..|lines| - 1], first)
  }

  function Concise(error: string): string {
    ConciseLine(SplitLines(error), SplitLines(error)[0])
  }

  method IsTelling(line: string) returns (b: bool)
    ensures b == Telling(line)
  {
    b := Contains(line, "error") || Contains(line, "failed") || Contains(line, "spawn")
      || Contains(line, "did not reach");
  }

  /** conciseDeployError */
  method ConciseDeployError(error: string) returns (r: string)
    ensures r == Concise(error)
  {
    var lines := SplitLines(error);
    var index := |lines|;
    assert lines[..index] == lines;
    while index > 0
      invariant 0 <= index <= |lines| && ConciseLine(lines[..index], lines[0]) == Concise(error)
    {
      index := index - 1;
      assert lines[..index + 1][..index] == lines[..index];
      var line := TrimSpace(lines[index]);
      var telling := IsTelling(ToLower(line));
      if telling {
        return LogWindow.Truncate(line, MAX_ERROR_BYTES);
      }
    }
    assert lines[..0] == [];
    r := LogWindow.Truncate(TrimSpace(lines[0]), MAX_ERROR_BYTES);
  }

  /* Texts that end with a known line */

  /** A text that may precede a line: empty, or ending with a line break. */
  predicate Broken(x: string) {
    x == "" || x[|x| - 1] == '\n'
  }

  lemma {:induction false} SplitAfterBreak(x: string, rest: string) returns (front: seq<string>)
    requires Broken(x)
    ensures SplitLines(x + rest) == front + SplitLines(rest)
  {
    if x == "" {
      front := [];
      assert x + rest == rest;
    } else {
      assert (x + rest)[1..] == x[1..] + rest;
      if x[0] == '\n' {
        var f := SplitAfterBreak(x[1..], rest);
        front := [""] + f;
      } else {
        var f := SplitAfterBreak(x[1..], rest);
        if f == [] {
          NoEmptyFront(x[1..], rest);
        }
        front := [[x[0]] + f[0]] + f[1..];
      }
    }
  }

  lemma {:induction false} NoEmptyFront(x: string, rest: string)
    requires x != "" && Broken(x)
    ensures |SplitLines(x + rest)| > |SplitLines(rest)|
  {
    assert (x + rest)[1..] == x[1..] + rest;
    if x[1..] == "" {
      assert x[1..] + rest == rest;
    } else {
      NoEmptyFront(x[1..], rest);
    }
  }

  lemma {:induction false} SplitOneLine(line: string)
    requires OneLine(line)
    ensures SplitLines(line) == [line]
  {
    if line != "" {
      SplitOneLine(line[1..]);
      assert [line[0]] + line[1..] == line;
    }
  }

  lemma SplitLastLine(x: string, line: string) returns (front: seq<string>)
    requires Broken(x) && OneLine(line)
    ensures SplitLines(x + line) == front + [line]
    ensures SplitLines(x + line + "\n") == front + [line, ""]
  {
    front := SplitAfterBreak(x, line);
    SplitOneLine(line);
    front := SplitAfterBreak(x, line + "\n");
    SplitLine(line, "");
    assert line + "\n" + "" == line + "\n" && x + (line + "\n") == x + line + "\n";
    assert [line] + SplitLines("") == [line, ""];
    SameFront(x, line, front);
  }

  lemma {:induction false} SameFront(x: string, line: string, front: seq<string>)
    requires Broken(x) && OneLine(line) && SplitLines(x + line + "\n") == front + [line, ""]
    ensures SplitLines(x + line) == front + [line]
  {
    BreakAtEnd(x + line);
    assert (front + [line, ""])[..|front| + 1] == front + [line];
  }

  lemma {:induction false} BreakAtEnd(s: string)
    ensures SplitLines(s + "\n") == SplitLines(s) + [""]
  {
    if s == "" {
      assert (s + "\n")[1..] == "" && [""] + [""] == ["", ""];
    } else {
      assert (s + "\n")[1..] == s[1..] + "\n";
      BreakAtEnd(s[1..]);
      var rest := SplitLines(s[1..]);
      assert (rest + [""])[1..] == rest[1..] + [""] && (rest + [""])[0] == rest[0];
    }
  }

  /** A revision in the last line is the one that is reported. */
  lemma LastLineIsReported(x: string, line: string)
    requires Broken(x) && OneLine(line) && ParseRevision(line).Some?
    ensures ParsedRevision(x + line + "\n") == ParseRevision(line).value
  {
    var front := SplitLastLine(x, line);
    LastRevisionOf(front, line);
  }

  lemma EmptyIsNoRevision()
    ensures ParseRevision("").None?
  {
    assert |Log(SOURCE)| > 0 && |Log(COMPLETED)| > 0 && |Log(FAILED)| > 0;
  }

  lemma LastRevisionOf(front: seq<string>, line: string)
    requires ParseRevision(line).Some?
    ensures LastRevision(front + [line]) == LastRevision(front + [line, ""]) == ParseRevision(line).value
  {
    EmptyIsNoRevision();
    assert (front + [line, ""])[..|front| + 1] == front + [line];
    assert (front + [line])[|front|] == line && (front + [line, ""])[|front| + 1] == "";
  }

  /** Cutting the output to its last bytes keeps its last line. */
  lemma TailKeepsLastLine(x: string, line: string) returns (y: string)
    requires Broken(x) && |line| < OutputCapture.MAX_OUTPUT
    ensures Broken(y) && OutputCapture.Tail(x + line + "\n") == y + line + "\n"
  {
    var text := x + line + "\n";
    var cut := |text| - |OutputCapture.Tail(text)|;
    y := x[cut..];
    assert text[cut..] == y + line + "\n";
  }

  /* The error of a failed command */

  lemma {:induction false} TrimLeftBroken(x: string)
    requires Broken(x)
    ensures Broken(TrimLeft(x))
  {
    if x != "" && IsSpace(x[0]) {
      TrimLeftBroken(x[1..]);
    }
  }

  lemma TrimAround(x: string, line: string)
    requires line != "" && !IsSpace(line[0]) && !IsSpace(line[|line| - 1])
    ensures TrimSpace(x + line + "\n") == TrimLeft(x) + line && TrimSpace(line) == line
  {
    assert x + line + "\n" == x + (line + "\n");
    TrimLeftKeeps(x, line + "\n");
    assert TrimLeft(x) + (line + "\n") == (TrimLeft(x) + line) + "\n";
    TrimRightKeeps(TrimLeft(x) + line, "\n");
    assert "\n"[..0] == "" && TrimRight("\n") == "";
    assert TrimLeft(x) + line + "" == TrimLeft(x) + line;
  }

  /** The error text up to the last line of the output. */
  function ErrorHead(cause: string, x: string): string {
    "deploy command failed: " + cause + "\n" + TrimLeft(x)
  }

  lemma FailureTextEnds(cause: string, x: string, line: string)
    requires Broken(x) && line != "" && !IsSpace(line[0]) && !IsSpace(line[|line| - 1])
    ensures FailureText(cause, x + line + "\n") == ErrorHead(cause, x) + line
    ensures Broken(ErrorHead(cause, x)) && TrimSpace(line) == line
  {
    TrimAround(x, line);
    TrimLeftBroken(x);
    Glued("deploy command failed: " + cause, TrimLeft(x), line);
  }

  lemma Glued(a: string, b: string, c: string)
    ensures a + ("\n" + (b + c)) == a + "\n" + b + c
  {
  }

  /** If the output ends with a telling line, this line is the short error. */
  lemma ConciseIsLastLine(cause: string, x: string, line: string)
    requires Broken(x) && OneLine(line) && line != "" && !IsSpace(line[0]) && !IsSpace(line[|line| - 1])
    requires Telling(ToLower(line)) && ByteLen(line) <= MAX_ERROR_BYTES
    ensures Concise(FailureText(cause, x + line + "\n")) == line
  {
    FailureTextEnds(cause, x, line);
    var front := SplitLastLine(ErrorHead(cause, x), line);
    ConciseOf(front, line, (front + [line])[0]);
  }

  lemma ConciseOf(front: seq<string>, line: string, first: string)
    requires TrimSpace(line) == line && Telling(ToLower(line)) && ByteLen(line) <= MAX_ERROR_BYTES
    ensures ConciseLine(front + [line], first) == line
  {
    assert (front + [line])[|front|] == line;
  }

  /* The lines that carry the revision */

  predicate RevisionMessage(message: string) {
    message == SOURCE || message == COMPLETED || message == FAILED
  }

  lemma OtherMessage(line: string, a: string, b: string)
    requires HasPrefix(line, Log(a)) && a != "" && b != "" && a[0] != b[0]
    ensures RevisionAfter(line, b).None?
  {
    assert line[|TAG| + 1] == Log(a)[|TAG| + 1] == a[0];
    assert Log(b)[|TAG| + 1] == b[0];
    NotPrefix(line, Log(b), |TAG| + 1);
  }

  lemma RevisionAfterItself(message: string, revision: string)
    requires IsRevision(revision)
    ensures HasPrefix(Log(message + revision), Log(message))
    ensures RevisionAfter(Log(message + revision), message) == Some(revision)
  {
    var line := Log(message + revision);
    assert line == Log(message) + revision;
    assert line[..|Log(message)|] == Log(message) && line[|Log(message)|..] == revision;
  }

  lemma RevisionLineReads(message: string, revision: string)
    requires RevisionMessage(message) && IsRevision(revision)
    ensures ParseRevision(Log(message + revision)) == Some(revision)
  {
    var line := Log(message + revision);
    RevisionAfterItself(message, revision);
    assert SOURCE[0] == 's' && COMPLETED[0] == 'd' && FAILED[0] == 'f';
    if message != SOURCE { OtherMessage(line, message, SOURCE); }
    if message == FAILED { OtherMessage(line, message, COMPLETED); }
  }

  lemma MessagesAreShort()
    ensures OneLine(SOURCE) && OneLine(COMPLETED) && OneLine(FAILED)
    ensures |SOURCE| <= 22 && |COMPLETED| <= 22 && |FAILED| <= 22
  {
  }

  lemma RevisionLineShape(message: string, revision: string)
    requires RevisionMessage(message) && IsRevision(revision)
    ensures OneLine(Log(message + revision)) && |Log(message + revision)| <= 80
    ensures Log(message + revision)[0] == '[' && !IsSpace(Log(message + revision)[|Log(message + revision)| - 1])
  {
    TagHasNoBlank();
    MessagesAreShort();
  }

  lemma FailedLineTells(revision: string)
    requires IsRevision(revision)
    ensures Telling(ToLower(Log(FAILED + revision))) && ByteLen(Log(FAILED + revision)) <= MAX_ERROR_BYTES
  {
    var line := Log(FAILED + revision);
    RevisionLineShape(FAILED, revision);
    ByteLenBound(line);
    var lower := ToLower(line);
    assert line[16..22] == "failed";
    assert lower[16..22] == "failed";
    assert Occurs(lower, "failed", 16);
  }

  /** The error shown for a run that ended with its revision line is that line,
      whatever went wrong before it. */
  lemma ErrorIsRevisionLine(cause: string, x: string, revision: string)
    requires Broken(x) && IsRevision(revision)
    ensures Concise(FailureText(cause, x + Log(FAILED + revision) + "\n")) == Log(FAILED + revision)
  {
    RevisionLineShape(FAILED, revision);
    FailedLineTells(revision);
    ConciseIsLastLine(cause, x, Log(FAILED + revision));
  }

  /* Which line is shown */

  lemma {:induction false} FirstLineStarts(p: string, t: string)
    requires OneLine(p)
    ensures SplitLines(p + t)[0] == p + SplitLines(t)[0]
  {
    if p == "" {
      assert p + t == t && "" + SplitLines(t)[0] == SplitLines(t)[0];
    } else {
      assert (p + t)[1..] == p[1..] + t;
      FirstLineStarts(p[1..], t);
      assert [p[0]] + (p[1..] + SplitLines(t)[0]) == p + SplitLines(t)[0];
    }
  }

  const FAILURE := "deploy command failed:"

  lemma FailureTells(rest: string)
    ensures Telling(ToLower(TrimSpace(FAILURE + rest)))
  {
    assert FAILURE[0] == 'd' && FAILURE[|FAILURE| - 1] == ':';
    assert TrimLeft(FAILURE + rest) == FAILURE + rest;
    TrimRightKeeps(FAILURE, rest);
    var line := FAILURE + TrimRight(rest);
    assert FAILURE[15..21] == "failed";
    assert line[15..21] == FAILURE[15..21];
    var lower := ToLower(line);
    assert lower[15..21] == "failed";
    assert Occurs(lower, "failed", 15);
  }

  /** The first line of the error of a failed command is telling, so the short error
      is always a telling line. */
  lemma FirstLineTells(cause: string, output: string)
    ensures Telling(ToLower(TrimSpace(SplitLines(FailureText(cause, output))[0])))
  {
    var tail := if TrimSpace(output) == "" then "" else "\n" + TrimSpace(output);
    assert FailureText(cause, output) == FAILURE + (" " + cause + tail) by {
      assert "deploy command failed: " == FAILURE + " ";
    }
    assert OneLine(FAILURE);
    FirstLineStarts(FAILURE, " " + cause + tail);
    FailureTells(SplitLines(" " + cause + tail)[0]);
  }

  lemma {:induction false} ConciseOfTelling(lines: seq<string>, first: string, i: nat) returns (line: string)
    requires i < |lines| && Telling(ToLower(TrimSpace(lines[i])))
    ensures Telling(ToLower(line)) && ConciseLine(lines, first) == LogWindow.Truncate(line, MAX_ERROR_BYTES)
    decreases |lines|
  {
    line := TrimSpace(lines[|lines| - 1]);
    if !Telling(ToLower(line)) {
      line := ConciseOfTelling(lines[..|lines| - 1], first, i);
    }
  }

  lemma ConciseTells(cause: string, output: string) returns (line: string)
    ensures Telling(ToLower(line))
    ensures Concise(FailureText(cause, output)) == LogWindow.Truncate(line, MAX_ERROR_BYTES)
  {
    FirstLineTells(cause, output);
    var lines := SplitLines(FailureText(cause, output));
    line := ConciseOfTelling(lines, lines[0], 0);
  }

  /** A line that the report does not have to trim or to cut. */
  predicate PlainLine(line: string) {
    && OneLine(line) && line != "" && !IsSpace(line[0]) && !IsSpace(line[|line| - 1])
    && ByteLen(line) < MAX_ERROR_BYTES
  }

  lemma CutIsLong(line: string)
    requires ByteLen(line) > MAX_ERROR_BYTES
    ensures ByteLen(LogWindow.Truncate(line, MAX_ERROR_BYTES)) >= MAX_ERROR_BYTES
  {
    var head := LogWindow.TakeBytes(line, MAX_ERROR_BYTES);
    ByteLenOfSum(head, "\U{2026}");
    assert ByteLen("\U{2026}") == 3 by { assert "\U{2026}"[1..] == ""; }
    assert head != line;
  }

  /** The last line of the output is the short error exactly when it is telling. */
  lemma LastLineIsShown(cause: string, x: string, line: string)
    requires Broken(x) && PlainLine(line)
    ensures Concise(FailureText(cause, x + line + "\n")) == line <==> Telling(ToLower(line))
  {
    if Telling(ToLower(line)) {
      ConciseIsLastLine(cause, x, line);
    } else {
      var shown := ConciseTells(cause, x + line + "\n");
      if ByteLen(shown) > MAX_ERROR_BYTES {
        CutIsLong(shown);
      }
    }
  }

  /** The line that die prints. */
  function Fatal(reason: string): string {
    Log("ERROR: " + reason)
  }

  predicate IsFatal(line: string) {
    HasPrefix(line, Log("ERROR: "))
  }

  lemma FatalTells(line: string)
    requires IsFatal(line)
    ensures Telling(ToLower(line))
  {
    var prefix, lower := Log("ERROR: "), ToLower(line);
    assert prefix[16] == 'E' && prefix[17] == 'R' && prefix[18] == 'R' && prefix[19] == 'O' && prefix[20] == 'R';
    SamePrefix(line, prefix, 16);
    SamePrefix(line, prefix, 17);
    SamePrefix(line, prefix, 18);
    SamePrefix(line, prefix, 19);
    SamePrefix(line, prefix, 20);
    assert Lower('E') == 'e' && Lower('R') == 'r' && Lower('O') == 'o';
    assert lower[16] == 'e' && lower[17] == 'r' && lower[18] == 'r' && lower[19] == 'o' && lower[20] == 'r';
    assert lower[16..21] == "error";
    assert Occurs(lower, "error", 16);
  }

  lemma SamePrefix(s: string, p: string, i: nat)
    requires HasPrefix(s, p) && i < |p|
    ensures s[i] == p[i]
  {
    assert s[..|p|][i] == s[i];
  }

  lemma FatalIsFatal(reason: string)
    ensures IsFatal(Fatal(reason))
  {
    assert Fatal(reason) == Log("ERROR: ") + reason;
  }
}
