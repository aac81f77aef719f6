/** The restart log inside the output of a deployment: what the script prints around
    it does not disturb its reading. */
module DeploymentLog {
  import opened Text
  import opened Selectors
  import opened Supervision
  import opened RestartLog
  import DeployArguments
  import opened ReleaseScript

  /** What the other commands print is line structured and does not look like a
      restart log, and Supervisor's process names have no blanks. */
  ghost predicate Quiet(w: World) {
    && Silent(w.sourceNoise) && Silent(w.noise) && Silent(w.installNoise) && Plain(w.supervisor)
    && (forall i :: 0 <= i < |w.names| ==> ProcessName(w.names[i]))
    && (forall i :: 0 <= i < |w.expired| ==> OneLine(w.expired[i]))
    && IsRevision(w.product.revision)
  }

  /* The lines around the log */

  lemma ServiceIsSilent(service: string)
    requires ValidService(service)
    ensures Silent([ServiceLine(service)])
  {
    assert OneLine(PARTYSTAR) && OneLine(ROOM) && OneLine("service: ");
    assert ("service: " + service)[0] == 's';
    SilentLog("service: " + service, 0);
  }

  lemma RevisionIsSilent(message: string, revision: string)
    requires (message == SOURCE || message == COMPLETED || message == FAILED) && IsRevision(revision)
    ensures Silent([Log(message + revision)])
  {
    assert OneLine(SOURCE) && OneLine(COMPLETED) && OneLine(FAILED);
    assert SOURCE[0] == 's' && COMPLETED[0] == 'd' && FAILED[0] == 'f';
    assert (message + revision)[0] == message[0];
    SilentLog(message + revision, 0);
  }

  lemma PhasesAreSilent()
    ensures Silent([PhaseLine()]) && Silent([BackupLine()]) && Silent([RestoreLine()])
  {
    assert OneLine(PHASE_MESSAGE) && OneLine("backup") && OneLine("restoring");
    SilentLog(PHASE_MESSAGE, 0);
    SilentLog("backup", 0);
    SilentLog("restoring", 4);
  }

  lemma RemovalIsSilent(path: string)
    requires OneLine(path)
    ensures Silent([Log("removing expired backup: " + path)])
  {
    var message := "removing expired backup: " + path;
    assert OneLine("removing expired backup: ");
    assert message[0] == 'r' && message[2] == 'm';
    SilentLog(message, 2);
  }

  lemma {:induction false} RemovalsAreSilent(expired: seq<string>)
    requires forall i :: 0 <= i < |expired| ==> OneLine(expired[i])
    ensures Silent(Removals(expired))
    decreases |expired|
  {
    if expired != [] {
      var n := |expired| - 1;
      RemovalsAreSilent(expired[..n]);
      RemovalIsSilent(expired[n]);
      RemovalsOfLonger(expired);
      SilentSum(Removals(expired[..n]), [Log("removing expired backup: " + expired[n])]);
    }
  }

  lemma RemovalsOfLonger(expired: seq<string>)
    requires expired != []
    ensures Removals(expired)
         == Removals(expired[..|expired| - 1]) + [Log("removing expired backup: " + expired[|expired| - 1])]
  {
  }

  lemma SourceIsSilent(w: World)
    requires Quiet(w)
    ensures Silent(SourceLines(w))
  {
    RevisionIsSilent(SOURCE, w.product.revision);
    SilentSum(w.sourceNoise, [Log(SOURCE + w.product.revision)]);
    SilentSum(w.sourceNoise + [Log(SOURCE + w.product.revision)], w.noise);
  }

  lemma HeadIsSilent(args: seq<string>, w: World)
    requires Quiet(w) && ValidService(Service(args))
    ensures Silent(Head(args, w))
  {
    ServiceIsSilent(Service(args));
    SourceIsSilent(w);
    PhasesAreSilent();
    SilentSum([ServiceLine(Service(args))], SourceLines(w));
    SilentSum([ServiceLine(Service(args))] + SourceLines(w), [PhaseLine()]);
    SilentSum([BackupLine()], w.installNoise);
    SilentSum([ServiceLine(Service(args))] + SourceLines(w) + [PhaseLine()], InstallLines(w));
  }

  lemma FootIsSilent(phase: Phase, w: World)
    requires Quiet(w)
    ensures Silent(Foot(phase, w))
  {
    RevisionIsSilent(COMPLETED, w.product.revision);
    RemovalsAreSilent(w.expired);
    SilentSum([Log(COMPLETED + w.product.revision)], Removals(w.expired));
  }

  lemma TrapIsSilent(restored: bool, prepared: bool, revision: string)
    requires IsRevision(revision)
    ensures Silent(TrapOutput(restored, prepared, revision))
  {
    PhasesAreSilent();
    RevisionIsSilent(FAILED, revision);
    SilentSum(if restored then [RestoreLine()] else [], if prepared then [FailedLine(revision)] else []);
  }

  /* The names */

  lemma NameOfParts(prefix: string, t: string)
    requires ProcessName(prefix) && DottedName(t)
    ensures ProcessName(prefix + t)
  {
  }

  lemma MappedIsName(service: string, s: string)
    requires DeployArguments.MapSelector(service, s).Some?
    ensures ProcessName(DeployArguments.MapSelector(service, s).value)
  {
    assert ProcessName("go.ps_cmd.") && ProcessName("room.cmd.") && ProcessName("room.");
    assert ProcessName("go.ps_http") && ProcessName("go.ps_rpc") && ProcessName("room.http") && ProcessName("room.rpc");
    if service == PARTYSTAR {
      if HasPrefix(s, "cmd.") && PlainName(s[4..]) { NameOfParts("go.ps_cmd.", s[4..]); }
      if HasPrefix(s, "go.ps_cmd.") && PlainName(s[10..]) { NameOfParts("go.ps_cmd.", s[10..]); }
    } else {
      if HasPrefix(s, "cmd.") && DottedName(s[4..]) { NameOfParts("room.cmd.", s[4..]); }
      if |s| > 5 && DottedName(s[5..]) { NameOfParts("room.", s[5..]); }
    }
  }

  lemma SelectedAreNames(args: seq<string>, w: World, ps: seq<string>)
    requires Quiet(w) && IsSelection(args, w, ps)
    ensures Distinct(ps) && forall i :: 0 <= i < |ps| ==> ProcessName(ps[i])
  {
    forall i | 0 <= i < |ps| ensures ProcessName(ps[i]) {
      assert ps[i] in ps;
      var selectors := DeployArguments.Parse(args).args.selectors;
      var s :| s in selectors && DeployArguments.StandsFor(Service(args), w.names, s, ps[i]);
      if s != "all" {
        MappedIsName(Service(args), s);
      }
    }
  }

  /* The reading */

  /** The whole output of a deployment that got to the restarts is read as the log of
      its restarts. */
  lemma LogInOutput(before: seq<string>, head: seq<string>, log: seq<string>, foot: seq<string>, trap: seq<string>,
                    ps: seq<string>, calls: seq<nat>, last: seq<string>)
    requires Silent(before) && Silent(head) && Silent(foot) && Silent(trap)
    requires |calls| <= |ps| && LogOf(log, ps, calls, last)
    ensures LogOf(before + head + log + foot + trap, ps, calls, last)
  {
    SilentSum(before, head);
    LogOfSilentBefore(log, ps, calls, last, before + head);
    LogOfSilent(before + head + log, ps, calls, last, foot);
    LogOfSilent(before + head + log + foot, ps, calls, last, trap);
  }

  /** For every deployment that got to the restarts, the reported rows are those of
      the visits that were made, whether it was committed or rolled back. */
  lemma RowsOfDeployment(before: seq<string>, said: seq<string>, args: seq<string>, log: seq<string>,
                         phase: Phase, w: World, trap: seq<string>, ps: seq<string>)
    requires Quiet(w) && Silent(before) && Silent(trap) && ValidService(Service(args))
    requires PrintedInAll(before, said, args, log, phase, w) && IsSelection(args, w, ps)
    ensures ParseOutput(Unlines(said + trap)) == RestartRows(w.supervisor, ps)
  {
    var qs :| IsSelection(args, w, qs) && IsRestartLog(log, qs, w);
    SelectionIsUnique(args, w, ps, qs);
    SelectedAreNames(args, w, ps);
    HeadIsSilent(args, w);
    FootIsSilent(phase, w);
    var vs := VisitAll(w.supervisor, ps, 0, 0);
    LogInOutput(before, Head(args, w), log, Foot(phase, w), trap, ps, Calls(vs), Last(vs));
    RowsAreRead(w.supervisor, ps, said + trap);
  }
}
