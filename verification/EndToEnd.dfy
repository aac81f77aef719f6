/** A deployment request from the Go service to the target and back: what the
    reported verdict says about the target. */
module EndToEnd {
  import opened Text
  import opened Selectors
  import opened ReleaseTarget
  import Manager
  import OutputCapture
  import DeployArguments
  import DeploymentService
  import RestartLog
  import RunReport
  import ReleaseScript
  import DeploymentLog

  /** A printed line is found in the text, whatever surrounds it. */
  lemma {:induction false} LineIsInText(lines: seq<string>, line: string)
    requires line in lines
    ensures Contains(RestartLog.Unlines(lines), line)
  {
    var text, rest := RestartLog.Unlines(lines), RestartLog.Unlines(lines[1..]);
    if lines[0] == line {
      ContainsInMiddle("", line, "\n" + rest);
      assert "" + line + ("\n" + rest) == text;
    } else {
      assert line in lines[1..];
      LineIsInText(lines[1..], line);
      ContainsMonotone(rest, lines[0] + "\n", "", line);
      assert lines[0] + "\n" + rest + "" == text;
    }
  }

  lemma PhaseLineIsMarker()
    ensures ReleaseScript.PhaseLine() == OutputCapture.MARKER
  {
  }

  /* What is reported */

  lemma {:induction false} UnlinesOfSum(a: seq<string>, b: seq<string>)
    ensures RestartLog.Unlines(a + b) == RestartLog.Unlines(a) + RestartLog.Unlines(b)
  {
    if a == [] {
      assert a + b == b;
    } else {
      assert (a + b)[1..] == a[1..] + b;
      UnlinesOfSum(a[1..], b);
    }
  }

  lemma {:induction false} UnlinesBroken(lines: seq<string>)
    ensures RunReport.Broken(RestartLog.Unlines(lines))
  {
    if lines != [] {
      UnlinesBroken(lines[1..]);
    }
  }

  /** The text ends with its last line. */
  lemma UnlinesEnd(lines: seq<string>, line: string) returns (x: string)
    requires lines != [] && lines[|lines| - 1] == line
    ensures RunReport.Broken(x) && RestartLog.Unlines(lines) == x + line + "\n"
  {
    var front := lines[..|lines| - 1];
    x := RestartLog.Unlines(front);
    UnlinesBroken(front);
    UnlinesOfSum(front, [line]);
    assert lines == front + [line];
    assert RestartLog.Unlines([line]) == line + "\n" + "";
  }

  /** What the runner keeps of an output ends with the output's last line. */
  lemma TailEnd(lines: seq<string>, line: string) returns (y: string)
    requires lines != [] && lines[|lines| - 1] == line && |line| < OutputCapture.MAX_OUTPUT
    ensures RunReport.Broken(y) && OutputCapture.Tail(RestartLog.Unlines(lines)) == y + line + "\n"
  {
    var x := UnlinesEnd(lines, line);
    y := RunReport.TailKeepsLastLine(x, line);
  }

  lemma ReportOfTail(y: string, revision: string, line: string, cause: string)
    requires RunReport.Broken(y) && RestartLog.IsRevision(revision)
    requires line == RestartLog.Log(RestartLog.FAILED + revision)
    ensures RestartLog.ParsedRevision(y + line + "\n") == revision && TrimSpace(y + line + "\n") != ""
    ensures RunReport.Concise(RunReport.FailureText(cause, y + line + "\n")) == line
  {
    RunReport.RevisionLineReads(RestartLog.FAILED, revision);
    RunReport.RevisionLineShape(RestartLog.FAILED, revision);
    RunReport.LastLineIsReported(y, line);
    RunReport.ErrorIsRevisionLine(cause, y, revision);
    RunReport.TrimAround(y, line);
  }

  /** A run that failed once its source was there: the revision is reported, and the
      short error is the revision line, whatever went wrong. */
  lemma FailureReport(lines: seq<string>, revision: string, line: string, cause: string)
    requires RestartLog.IsRevision(revision) && line == RestartLog.Log(RestartLog.FAILED + revision)
    requires lines != [] && lines[|lines| - 1] == line
    ensures RestartLog.ParsedRevision(OutputCapture.Tail(RestartLog.Unlines(lines))) == revision
    ensures TrimSpace(OutputCapture.Tail(RestartLog.Unlines(lines))) != ""
    ensures RunReport.Concise(RunReport.FailureText(cause, OutputCapture.Tail(RestartLog.Unlines(lines)))) == line
  {
    FailedLineIsShort(revision);
    var y := TailEnd(lines, line);
    ReportOfTail(y, revision, line, cause);
  }

  lemma FailedLineIsShort(revision: string)
    requires RestartLog.IsRevision(revision)
    ensures |RestartLog.Log(RestartLog.FAILED + revision)| < OutputCapture.MAX_OUTPUT
  {
    RunReport.RevisionLineShape(RestartLog.FAILED, revision);
  }

  /** A run that failed before its source was there: its last line is the short error
      exactly when it is telling. */
  lemma LastLineReport(lines: seq<string>, line: string, cause: string)
    requires lines != [] && lines[|lines| - 1] == line && RunReport.PlainLine(line)
    ensures RunReport.Concise(RunReport.FailureText(cause, OutputCapture.Tail(RestartLog.Unlines(lines)))) == line
       <==> RunReport.Telling(ToLower(line))
  {
    ByteLenAtLeast(line);
    var y := TailEnd(lines, line);
    RunReport.LastLineIsShown(cause, y, line);
  }

  lemma SilentLast(lines: seq<string>, last: string)
    requires RestartLog.ParseRevision(last).None?
    ensures RestartLog.LastRevision(lines + [last]) == RestartLog.LastRevision(lines)
  {
    assert (lines + [last])[..|lines|] == lines;
  }

  lemma {:induction false} RemovalsAreSilent(front: seq<string>, expired: seq<string>)
    ensures RestartLog.LastRevision(front + ReleaseScript.Removals(expired)) == RestartLog.LastRevision(front)
    decreases |expired|
  {
    if expired == [] {
      assert front + ReleaseScript.Removals(expired) == front;
    } else {
      var n := |expired| - 1;
      var before, last := ReleaseScript.Removals(expired[..n]), ReleaseScript.Removals(expired)[n];
      assert front + ReleaseScript.Removals(expired) == front + before + [last];
      RemovalIsSilent(expired[n]);
      SilentLast(front + before, last);
      RemovalsAreSilent(front, expired[..n]);
    }
  }

  lemma RemovalIsSilent(path: string)
    ensures RestartLog.ParseRevision(RestartLog.Log("removing expired backup: " + path)).None?
  {
    var line := RestartLog.Log("removing expired backup: " + path);
    assert line[16] == 'r';
    assert RestartLog.Log(RestartLog.SOURCE)[16] == 's' && RestartLog.Log(RestartLog.COMPLETED)[16] == 'd'
        && RestartLog.Log(RestartLog.FAILED)[16] == 'f';
    RestartLog.NotPrefix(line, RestartLog.Log(RestartLog.SOURCE), 16);
    RestartLog.NotPrefix(line, RestartLog.Log(RestartLog.COMPLETED), 16);
    RestartLog.NotPrefix(line, RestartLog.Log(RestartLog.FAILED), 16);
  }

  /** The text of some lines, split again, ends with the last of them. */
  lemma SplitEnd(front: seq<string>, last: seq<string>) returns (f: seq<string>)
    requires forall i :: 0 <= i < |last| ==> RestartLog.OneLine(last[i])
    ensures RestartLog.SplitLines(RestartLog.Unlines(front + last)) == f + (last + [""])
  {
    UnlinesOfSum(front, last);
    UnlinesBroken(front);
    RestartLog.SplitUnlines(last);
    f := RunReport.SplitAfterBreak(RestartLog.Unlines(front), RestartLog.Unlines(last));
  }

  /** The removed directories have no line break in their names. */
  predicate PlainPaths(w: ReleaseScript.World) {
    forall i :: 0 <= i < |w.expired| ==> RestartLog.OneLine(w.expired[i])
  }

  lemma LastWordsAreLines(w: ReleaseScript.World, i: nat)
    requires RestartLog.IsRevision(w.product.revision) && i < |ReleaseScript.LastWords(w)| && PlainPaths(w)
    ensures RestartLog.OneLine(ReleaseScript.LastWords(w)[i])
  {
    if i == 0 {
      RunReport.RevisionLineShape(RestartLog.COMPLETED, w.product.revision);
    } else {
      RemovalIsOneLine(w.expired[i - 1]);
    }
  }

  /** A committed run reports its revision if its output was not cut. */
  lemma SuccessReport(lines: seq<string>, w: ReleaseScript.World)
    requires RestartLog.IsRevision(w.product.revision) && PlainPaths(w)
    requires ReleaseScript.EndsWith(lines, ReleaseScript.LastWords(w))
    ensures RestartLog.ParsedRevision(RestartLog.Unlines(lines)) == w.product.revision
  {
    var k := |lines| - |w.expired| - 1;
    assert lines == lines[..k] + ReleaseScript.LastWords(w);
    forall i | 0 <= i < |ReleaseScript.LastWords(w)| ensures RestartLog.OneLine(ReleaseScript.LastWords(w)[i]) {
      LastWordsAreLines(w, i);
    }
    var f := SplitEnd(lines[..k], ReleaseScript.LastWords(w));
    RunReport.RevisionLineReads(RestartLog.COMPLETED, w.product.revision);
    var line := RestartLog.Log(RestartLog.COMPLETED + w.product.revision);
    LastOfAll(f, line, ReleaseScript.Removals(w.expired), w.expired);
  }

  lemma RemovalIsOneLine(path: string)
    requires RestartLog.OneLine(path)
    ensures RestartLog.OneLine(RestartLog.Log("removing expired backup: " + path))
  {
    RestartLog.TagHasNoBlank();
  }

  lemma LastOfAll(f: seq<string>, line: string, removals: seq<string>, expired: seq<string>)
    requires removals == ReleaseScript.Removals(expired) && RestartLog.ParseRevision(line).Some?
    ensures RestartLog.LastRevision(f + ([line] + removals + [""])) == RestartLog.ParseRevision(line).value
  {
    var all := f + [line] + removals;
    assert f + ([line] + removals + [""]) == all + [""];
    assert (all + [""])[..|all|] == all;
    RunReport.LastRevisionOf(f, line);
    RunReport.EmptyIsNoRevision();
    RemovalsAreSilent(f + [line], expired);
  }

  /* From end to end */

  /** The revision is read from the output of a failed run, and the short form of its
      error is the line with the revision. */
  ghost predicate ReportsFailure(run: DeploymentService.CommandRun, revision: string) {
    && RestartLog.ParsedRevision(Returned(run)) == revision
    && DeploymentService.Failure(run).Some?
    && RunReport.Concise(DeploymentService.Failure(run).value) == RestartLog.Log(RestartLog.FAILED + revision)
  }

  /** The short error of a failed run against the last line that the script printed
      before its exit trap: it is this line if and only if the source had not been
      prepared and the line is telling. */
  ghost predicate ShowsLastLine(error: string, said: seq<string>, prepared: bool, revision: string) {
    said != [] && RunReport.PlainLine(said[|said| - 1])
    && (prepared ==> said[|said| - 1] != RestartLog.Log(RestartLog.FAILED + revision)) ==>
      (RunReport.Concise(error) == said[|said| - 1] <==> !prepared && RunReport.Telling(ToLower(said[|said| - 1])))
  }

  predicate Uncut(run: DeploymentService.CommandRun) {
    |OutputCapture.Concat(run.chunks)| <= OutputCapture.MAX_OUTPUT
  }

  function Returned(run: DeploymentService.CommandRun): string {
    RunReport.Returned(OutputCapture.Tail(OutputCapture.Concat(run.chunks)), run.error.Some?)
  }

  /** The error that bash's exit code gives. */
  function ExitStatus(code: nat): string {
    "exit status " + Decimal(code)
  }

  /** The runner's error for a script that printed these lines. */
  ghost predicate IsFailureOf(error: string, out: seq<string>) {
    exists code: nat :: code != 0
      && error == RunReport.FailureText(ExitStatus(code), OutputCapture.Tail(RestartLog.Unlines(out)))
  }

  /** What the host printed: the output of main, then that of the exit trap. */
  ghost predicate Printed(out: seq<string>, said: seq<string>, failed: bool, phase: ReleaseScript.Phase,
                          prepared: bool, revision: string) {
    && out == said + ReleaseScript.TrapLines(failed, phase, prepared, revision)
    && (!prepared ==> said == out)
  }

  /** The rows read from an output are those of the visits to the selected processes. */
  ghost predicate ReportsVisits(output: string, args: seq<string>, w: ReleaseScript.World) {
    exists ps :: ReleaseScript.IsSelection(args, w, ps)
      && RestartLog.ParseOutput(output) == RestartLog.RestartRows(w.supervisor, ps)
      && RestartLog.AreRows(RestartLog.ParseOutput(output), w.supervisor, ps)
  }

  /** The output of a run that got to its restarts, in quiet surroundings. */
  ghost predicate QuietRestarts(before: seq<string>, phase: ReleaseScript.Phase, w: ReleaseScript.World) {
    && DeploymentLog.Quiet(w) && RestartLog.Silent(before)
    && (phase == ReleaseScript.Restarting || phase == ReleaseScript.Committed)
  }

  /** The script's run as the runner sees it: its output cut into writes, and an
      error for a non-zero exit code. */
  method RunScript(host: ReleaseScript.Host, args: seq<string>, w: ReleaseScript.World, cut: string -> seq<string>)
    returns (run: DeploymentService.CommandRun, phase: ReleaseScript.Phase, ghost said: seq<string>)
    requires host.Fresh() && forall s :: OutputCapture.Concat(cut(s)) == s
    modifies host
    ensures OutputCapture.Concat(run.chunks) == RestartLog.Unlines(host.out)
    ensures Printed(host.out, said, run.error.Some?, phase, host.source.Some?, w.product.revision)
    ensures run.error.Some? ==> IsFailureOf(DeploymentService.Failure(run).value, host.out)
    ensures phase != ReleaseScript.Early ==> DeploymentService.ReachedMarker(run)
    ensures phase == ReleaseScript.Early ==> host.View() == old(host.View())
    ensures phase != ReleaseScript.Committed ==> Restored(old(host.View()), host.View(), w.product)
    ensures phase == ReleaseScript.Committed ==>
        ReleaseScript.Released(old(host.View()), host.View(), args, w) && ReleaseScript.Healthy(args, w)
    ensures ReleaseScript.DeployRequest(args) && run.error.None? ==> phase == ReleaseScript.Committed
    ensures ReleaseScript.Unhindered(args, old(host.View()), w) ==>
        (run.error.None? <==> ReleaseScript.Healthy(args, w)) && (run.error.Some? <==> ReleaseScript.Unhealthy(args, w))
    ensures ReleaseScript.Unhindered(args, old(host.View()), w) ==> phase != ReleaseScript.Early
    ensures RestartLog.IsRevision(w.product.revision) && host.source.Some? && run.error.Some? ==>
        ReportsFailure(run, w.product.revision)
    ensures ReleaseScript.DeployRequest(args) && RestartLog.IsRevision(w.product.revision) && run.error.None?
      ==> PlainPaths(w) && Uncut(run) ==> RestartLog.ParsedRevision(Returned(run)) == w.product.revision
    ensures host.source.Some? <==> ReleaseScript.ReachesSource(args, w) && w.sourceOk
    ensures RestartLog.IsRevision(w.product.revision) && run.error.Some? ==>
        ShowsLastLine(DeploymentService.Failure(run).value, said, host.source.Some?, w.product.revision)
    ensures ReleaseScript.DeployRequest(args) && !ReleaseScript.ReachesSource(args, w) ==>
        ReleaseScript.EndsFatally(said)
    ensures ReleaseScript.ReachesSource(args, w) && !w.sourceOk ==> ReleaseScript.EndsWith(said, w.sourceNoise)
    ensures QuietRestarts(old(host.out), phase, w) && Uncut(run) ==> ReportsVisits(Returned(run), args, w)
  {
    var code;
    ghost var log;
    code, phase, said, log := host.Execute(args, w);
    var text := RestartLog.Unlines(host.out);
    PhaseLineIsMarker();
    if phase != ReleaseScript.Early {
      LineIsInText(host.out, OutputCapture.MARKER);
    }
    ReleaseScript.NotBothHealthyAndUnhealthy(args, w);
    run := DeploymentService.CommandRun(cut(text), if code == 0 then None else Some(ExitStatus(code)));
    if RestartLog.IsRevision(w.product.revision) {
      ReportOfRun(old(host.out), host.out, said, host.source.Some?, phase, args, log, w, run);
      if QuietRestarts(old(host.out), phase, w) && Uncut(run) {
        RowsOfRun(old(host.out), host.out, said, phase, args, log, w, run);
      }
    }
  }

  /** What a run's output says, given how it ended. */
  lemma ReportOfRun(before: seq<string>, out: seq<string>, said: seq<string>, prepared: bool,
                    phase: ReleaseScript.Phase, args: seq<string>, log: seq<string>, w: ReleaseScript.World,
                    run: DeploymentService.CommandRun)
    requires OutputCapture.Concat(run.chunks) == RestartLog.Unlines(out) && RestartLog.IsRevision(w.product.revision)
    requires Printed(out, said, run.error.Some?, phase, prepared, w.product.revision)
    requires phase == ReleaseScript.Committed ==> ReleaseScript.PrintedInAll(before, said, args, log, phase, w)
    ensures prepared && run.error.Some? ==> ReportsFailure(run, w.product.revision)
    ensures (prepared || run.error.None?) && Uncut(run) ==> Returned(run) == RestartLog.Unlines(out)
    ensures phase == ReleaseScript.Committed && run.error.None? && PlainPaths(w) && Uncut(run) ==>
        RestartLog.ParsedRevision(Returned(run)) == w.product.revision
    ensures run.error.Some? ==>
        ShowsLastLine(DeploymentService.Failure(run).value, said, prepared, w.product.revision)
  {
    if prepared && run.error.Some? {
      assert out[|out| - 1] == ReleaseScript.FailedLine(w.product.revision);
      FailureReport(out, w.product.revision, out[|out| - 1], run.error.value);
    }
    if !prepared && run.error.Some? && said != [] && RunReport.PlainLine(said[|said| - 1]) {
      LastLineReport(said, said[|said| - 1], run.error.value);
    }
    if phase == ReleaseScript.Committed && run.error.None? && PlainPaths(w) {
      assert ReleaseScript.EndsWith(out, ReleaseScript.LastWords(w));
      SuccessReport(out, w);
    }
  }

  /** An uncut output that got to the restarts is read as the visits that were made. */
  lemma RowsOfRun(before: seq<string>, out: seq<string>, said: seq<string>, phase: ReleaseScript.Phase,
                  args: seq<string>, log: seq<string>, w: ReleaseScript.World, run: DeploymentService.CommandRun)
    requires Returned(run) == RestartLog.Unlines(out) && ValidService(ReleaseScript.Service(args))
    requires QuietRestarts(before, phase, w)
    requires out == said + ReleaseScript.TrapLines(run.error.Some?, phase, true, w.product.revision)
    requires ReleaseScript.PrintedInAll(before, said, args, log, phase, w)
    ensures ReportsVisits(Returned(run), args, w)
  {
    var trap := ReleaseScript.TrapLines(run.error.Some?, phase, true, w.product.revision);
    TrapLinesAreSilent(run.error.Some?, phase, w.product.revision);
    var ps :| ReleaseScript.IsSelection(args, w, ps) && ReleaseScript.IsRestartLog(log, ps, w);
    DeploymentLog.RowsOfDeployment(before, said, args, log, phase, w, trap, ps);
    RestartLog.RestartRowsMean(w.supervisor, ps);
  }

  lemma TrapLinesAreSilent(failed: bool, phase: ReleaseScript.Phase, revision: string)
    requires RestartLog.IsRevision(revision)
    ensures RestartLog.Silent(ReleaseScript.TrapLines(failed, phase, true, revision))
  {
    if failed {
      DeploymentLog.TrapIsSilent(phase == ReleaseScript.Installing || phase == ReleaseScript.Registering
                              || phase == ReleaseScript.Restarting, true, revision);
    }
  }

  /** A deployment request from end to end. */
  method DeployOnHost(host: ReleaseScript.Host, input: Input, w: ReleaseScript.World,
                      cut: string -> seq<string>, canceled: bool)
    returns (status: Manager.Status, phase: ReleaseScript.Phase, output: string, error: Option<string>,
             ghost said: seq<string>)
    requires host.Fresh() && ValidDeployment(input)
    requires forall s :: OutputCapture.Concat(cut(s)) == s
    modifies host
    ensures Printed(host.out, said, error.Some?, phase, host.source.Some?, w.product.revision)
    ensures output == RunReport.Returned(OutputCapture.Tail(RestartLog.Unlines(host.out)), error.Some?)
    ensures error.Some? ==> IsFailureOf(error.value, host.out)
    ensures status == Manager.CompileFailed ==>
        phase == ReleaseScript.Early && host.View() == old(host.View())
    ensures status == Manager.Failed ==>
        Restored(old(host.View()), host.View(), w.product)
        || (phase == ReleaseScript.Committed
            && ReleaseScript.Released(old(host.View()), host.View(), DeployArguments.BuildArgs("deploy", input), w))
    ensures status == Manager.Succeeded ==>
        phase == ReleaseScript.Committed
        && ReleaseScript.Released(old(host.View()), host.View(), DeployArguments.BuildArgs("deploy", input), w)
        && ReleaseScript.Healthy(DeployArguments.BuildArgs("deploy", input), w)
    ensures status == Manager.Canceled <==> canceled
    ensures ReleaseScript.Unhindered(DeployArguments.BuildArgs("deploy", input), old(host.View()), w) && !canceled ==>
        (status == Manager.Succeeded <==> ReleaseScript.Healthy(DeployArguments.BuildArgs("deploy", input), w))
        && (status == Manager.Failed <==> ReleaseScript.Unhealthy(DeployArguments.BuildArgs("deploy", input), w))
    ensures RestartLog.IsRevision(w.product.revision) && host.source.Some? && error.Some? ==>
        RestartLog.ParsedRevision(output) == w.product.revision
        && RunReport.Concise(error.value) == RestartLog.Log(RestartLog.FAILED + w.product.revision)
    ensures RestartLog.IsRevision(w.product.revision) && error.Some? ==>
        ShowsLastLine(error.value, said, host.source.Some?, w.product.revision)
    ensures QuietRestarts(old(host.out), phase, w) && |RestartLog.Unlines(host.out)| <= OutputCapture.MAX_OUTPUT ==>
        ReportsVisits(output, DeployArguments.BuildArgs("deploy", input), w)
    ensures error.None? ==> phase == ReleaseScript.Committed
    ensures error.None? && RestartLog.IsRevision(w.product.revision) && PlainPaths(w) ==>
        |RestartLog.Unlines(host.out)| <= OutputCapture.MAX_OUTPUT ==>
        RestartLog.ParsedRevision(output) == w.product.revision
    ensures host.source.None? <==>
        !(ReleaseScript.ReachesSource(DeployArguments.BuildArgs("deploy", input), w) && w.sourceOk)
    ensures ReleaseScript.ReachesSource(DeployArguments.BuildArgs("deploy", input), w) && !w.sourceOk ==>
        ReleaseScript.EndsWith(said, w.sourceNoise)
    ensures !ReleaseScript.ReachesSource(DeployArguments.BuildArgs("deploy", input), w) ==>
        ReleaseScript.EndsFatally(said) && RunReport.Telling(ToLower(said[|said| - 1]))
  {
    RequestIsDeploy(input);
    var args := DeployArguments.BuildArguments("deploy", input);
    var run;
    run, phase, said := RunScript(host, args, w, cut);
    if !ReleaseScript.ReachesSource(args, w) {
      RunReport.FatalTells(said[|said| - 1]);
    }
    var events;
    events, output, error := DeploymentService.Deploy(input, _ => run, canceled);
    status := events[|events| - 1];
    assert status == DeploymentService.Verdict(canceled, run.error.Some?, DeploymentService.ReachedMarker(run));
  }

  /** The arguments of a deployment request ask the script to deploy. */
  lemma RequestIsDeploy(input: Input)
    requires ValidDeployment(input)
    ensures ReleaseScript.DeployRequest(DeployArguments.BuildArgs("deploy", input))
  {
    DeployArguments.ArgumentRoundTrip("deploy", input);
  }
}
