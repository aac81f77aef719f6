/** `Service.deploy` in internal/testdeploy/service.go: one deployment, its
    notifications and its verdict. Runner and notifier are given. */
module DeploymentService {
  import opened Text
  import opened Selectors
  import Manager
  import OutputCapture
  import DeployArguments
  import RunReport

  type Status = Manager.Status

  /** What one run of the script writes, write by write, and how it ends. */
  datatype CommandRun = CommandRun(chunks: seq<string>, error: Option<string>)

  function Verdict(canceled: bool, failed: bool, deploying: bool): Status {
    if canceled then Manager.Canceled
    else if failed then (if deploying then Manager.Failed else Manager.CompileFailed)
    else Manager.Succeeded
  }

  /** The notifications before the last one. */
  function Phases(deploying: bool): seq<Status> {
    if deploying then [Manager.Compiling, Manager.Deploying] else [Manager.Compiling]
  }

  predicate ReachedMarker(run: CommandRun) {
    Contains(OutputCapture.Concat(run.chunks), OutputCapture.MARKER)
  }

  /** The error that the runner returns. */
  function Failure(run: CommandRun): Option<string> {
    if run.error.None? then None
    else Some(RunReport.FailureText(run.error.value, OutputCapture.Tail(OutputCapture.Concat(run.chunks))))
  }

  /** deploy. `canceled` is what the context says after the runner returns. */
  method Deploy(input: Input, runner: seq<string> -> CommandRun, canceled: bool)
    returns (events: seq<Status>, output: string, error: Option<string>)
    ensures !ValidDeployment(input) ==> events == [] && error.Some?
    ensures ValidDeployment(input) ==>
        var run := runner(DeployArguments.BuildArgs("deploy", input));
        && events == Phases(ReachedMarker(run)) + [Verdict(canceled, run.error.Some?, ReachedMarker(run))]
        && error == Failure(run)
        && output == RunReport.Returned(OutputCapture.Tail(OutputCapture.Concat(run.chunks)), run.error.Some?)
    ensures ValidDeployment(input) ==> WellFormedTrace(events)
  {
    var invalid := ValidateDeployment(input);
    if invalid.Some? {
      return [], "", Some("invalid input");
    }
    events := [Manager.Compiling];
    var args := DeployArguments.BuildArguments("deploy", input);
    var run := runner(args);
    var deploying := false;
    var firedAt, calls;
    output, firedAt, calls := OutputCapture.CaptureAll(run.chunks, true);
    if calls == 1 {
      deploying := true;
      events := events + [Manager.Deploying];
    }
    error := Failure(run);
    output := RunReport.Returned(output, run.error.Some?);
    var status := Manager.Succeeded;
    if canceled {
      status := Manager.Canceled;
    } else if error.Some? {
      status := Manager.CompileFailed;
      if deploying {
        status := Manager.Failed;
      }
    }
    events := events + [status];
    TracesAreWellFormed(canceled, run.error.Some?, ReachedMarker(run));
  }

  /** How the notifications of a deployment may look. */
  ghost predicate WellFormedTrace(events: seq<Status>) {
    && events != [] && events[0] == Manager.Compiling
    && Manager.IsTerminal(events[|events| - 1])
    && (|events| == 2 || (|events| == 3 && events[1] == Manager.Deploying))
    && (events[|events| - 1] == Manager.Failed ==> |events| == 3)
    && (events[|events| - 1] == Manager.CompileFailed ==> |events| == 2)
  }

  lemma TracesAreWellFormed(canceled: bool, failed: bool, deploying: bool)
    ensures WellFormedTrace(Phases(deploying) + [Verdict(canceled, failed, deploying)])
  {
  }
}
