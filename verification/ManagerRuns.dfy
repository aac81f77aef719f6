/** What the invariant means over whole runs of the deployment manager. */
module ManagerRuns {
  import opened Text
  import opened Selectors
  import opened Manager
  import opened ManagerSystem
  import DeploymentService

  ghost predicate IsRun(states: seq<Sys>, steps: seq<Step>) {
    && |states| == |steps| + 1 && states[0] == INIT
    && forall i :: 0 <= i < |steps| ==> Enabled(states[i], steps[i]) && states[i + 1] == Apply(states[i], steps[i])
  }

  /** The invariant holds in every state of every run. */
  lemma {:induction false} RunKeepsInv(states: seq<Sys>, steps: seq<Step>, i: nat)
    requires IsRun(states, steps) && i < |states|
    ensures Inv(states[i])
    decreases i
  {
    if i == 0 {
      assert Counted(INIT.threads) == {};
    } else {
      RunKeepsInv(states, steps, i - 1);
      StepKeepsInv(states[i - 1], steps[i - 1]);
    }
  }

  /* Single states */

  /** Each service has at most one task that is not terminal. */
  lemma OneRunningTaskPerService(s: Sys, a: Id, b: Id)
    requires Inv(s) && a in s.m.tasks && b in s.m.tasks
    requires !IsTerminal(s.m.tasks[a].task.status) && !IsTerminal(s.m.tasks[b].task.status)
    requires s.m.tasks[a].task.service == s.m.tasks[b].task.service
    ensures a == b
  {
    RunningIsUnfinished(s, a);
    RunningIsUnfinished(s, b);
    assert ThreadOk(s.threads[a], s.m.contexts[a], Record(s, a));
    assert ThreadOk(s.threads[b], s.m.contexts[b], Record(s, b));
  }

  /** An unfinished deployment still has its record, and a cancel function. */
  lemma UnfinishedIsKept(s: Sys, id: Id)
    requires Inv(s) && Unfinished(s, id)
    ensures id in s.m.tasks && s.m.tasks[id].canCancel && !IsTerminal(s.m.tasks[id].task.status)
    ensures id in s.m.order
  {
    assert ThreadOk(s.threads[id], s.m.contexts[id], Record(s, id));
    UnfinishedRecord(s.threads[id], s.m.contexts[id], Record(s, id));
    assert id in Elems(s.m.order);
  }

  lemma UnfinishedRecord(t: Thread, ctx: Context, r: Option<Managed>)
    requires ThreadOk(t, ctx, r) && !t.pc.Over?
    ensures r.Some? && r.value.canCancel && !IsTerminal(r.value.task.status)
    ensures r.value.task.status == PhaseAt(t.pc)
  {
  }

  /** The "not found" exits of run and of its callback, the rejection of a
      validated input, and a call of a nil cancel function cannot happen. */
  lemma DeadExits(s: Sys, step: Step)
    requires Inv(s) && Enabled(s, step)
    ensures !step.Refuse?
    ensures step.ObserveCompiling? || step.ObserveDeploying? || step.Report? || step.FinishRun? ==>
        step.id in s.m.tasks
    ensures step.CancelCall? ==> CancelAnswer(s.m, step.id) != NilCall
  {
    if step.Refuse? {
      RefuseNeverHappens(s, step.id);
    } else if step.CancelCall? {
      if step.id in s.m.tasks && !IsTerminal(s.m.tasks[step.id].task.status) {
        RunningIsUnfinished(s, step.id);
      }
    } else if step.ObserveCompiling? || step.ObserveDeploying? || step.Report? || step.FinishRun? {
      UnfinishedIsKept(s, step.id);
    }
  }

  /** Bounded history refines full history: Recent returns the newest starts of
      all that were ever accepted, newest first. */
  lemma RecentIsNewestStarts(s: Sys, limit: nat)
    requires Inv(s) && 1 <= limit <= 50
    ensures Newest(s.m.order, limit) == Newest(s.hist, limit)
  {
    var k := |s.hist| - |s.m.order|;
    assert forall i :: 0 <= i < |s.m.order| ==> s.m.order[i] == s.hist[k + i];
  }

  /** After an accepted start the history is within its limit, or its oldest entry
      is still running. */
  lemma HistoryIsBounded(s: Sys, id: Id, input: Input)
    requires Inv(s) && Enabled(s, Start(id, input)) && ValidDeployment(input) && !Busy(s.m, input.service)
    ensures BoundedOrBusy(DoStart(s, id, input).m)
  {
    InsertKeepsThreads(s, id, input);
    InsertKeepsOrder(s, id, input);
    var before := Inserted(s, id, input);
    OrderIsIndexed(before);
    PruneIsBounded(before.m);
  }

  /** The history is within its limit, or its oldest entry is still running. */
  predicate BoundedOrBusy(m: State) {
    |m.order| <= 50 || (m.order[0] in m.tasks && !IsTerminal(m.tasks[m.order[0]].task.status))
  }

  lemma PruneIsBounded(st: State)
    requires Indexed(st)
    ensures BoundedOrBusy(Prune(st))
  {
    PruneRemovesPrefix(st);
    PruneStopsAtRunning(st);
    PruneKeepsIndexed(st);
    var m := Prune(st);
    if |m.order| > HISTORY_LIMIT {
      assert m.order[0] == st.order[PruneCount(st)];
      assert m.order[0] in Elems(m.order);
    }
  }

  /** What a goroutine that is over has sent. */
  lemma TraceOfOver(t: Thread, ctx: Context)
    requires ThreadOk(t, ctx, None) && t.pc.Over?
    ensures t.events == DeploymentService.Phases(t.pc.deploying) + [t.pc.verdict]
    ensures DeploymentService.WellFormedTrace(t.events)
    ensures t.pc.final == t.pc.verdict || t.pc.final == Canceled
    ensures IsTerminal(t.pc.final) && (t.pc.final == Canceled <==> ctx == CtxCanceled)
  {
  }

  lemma WithoutRecord(t: Thread, ctx: Context, r: Option<Managed>)
    requires ThreadOk(t, ctx, r) && t.pc.Over?
    ensures ThreadOk(t, ctx, None)
    ensures r.Some? ==> r.value.task.status == t.pc.final && r.value.task.slack.Keys == Keys(t.events)
  {
  }

  /** The notifications of a finished deployment are well formed, and its record
      shows exactly them; its status is the last of them, or canceled. */
  lemma TraceMatchesRecord(s: Sys, id: Id)
    requires Inv(s) && At(s, id) && s.threads[id].pc.Over?
    ensures DeploymentService.WellFormedTrace(s.threads[id].events)
    ensures id in s.m.tasks ==> RecordShowsTrace(s.m.tasks[id].task, s.threads[id].events, s.m.contexts[id])
  {
    var t := s.threads[id];
    assert ThreadOk(t, s.m.contexts[id], Record(s, id));
    WithoutRecord(t, s.m.contexts[id], Record(s, id));
    TraceOfOver(t, s.m.contexts[id]);
    assert t.events[|t.events| - 1] == t.pc.verdict;
  }

  /** A finished record: the Slack keys are the notifications, and the status is the
      last of them or canceled, the latter exactly if the context was cancelled. */
  predicate RecordShowsTrace(task: Task, events: seq<Status>, ctx: Context)
    requires events != []
  {
    && IsTerminal(task.status) && task.slack.Keys == Keys(events)
    && (task.status == events[|events| - 1] || task.status == Canceled)
    && (task.status == Canceled <==> ctx == CtxCanceled)
  }

  /** While a deployment runs, its record shows the notifications sent so far. */
  lemma SlackKeysAreTheTrace(s: Sys, id: Id)
    requires Inv(s) && id in s.m.tasks
    ensures At(s, id) && s.m.tasks[id].task.slack.Keys == Keys(s.threads[id].events)
    ensures s.threads[id].events == EventsAt(s.threads[id].pc)
  {
    assert ThreadOk(s.threads[id], s.m.contexts[id], Record(s, id));
  }

  /* Single steps */

  predicate StatusMove(a: Status, b: Status) {
    a == b || (a == Compiling && b == Deploying) || (!IsTerminal(a) && IsTerminal(b))
  }

  lemma TerminalMeansOver(s: Sys, id: Id)
    requires ThreadInv(s) && id in s.m.tasks
    ensures At(s, id) && (IsTerminal(s.m.tasks[id].task.status) <==> s.threads[id].pc.Over?)
  {
    assert ThreadOk(s.threads[id], s.m.contexts[id], Record(s, id));
    if !IsTerminal(s.m.tasks[id].task.status) {
      RunningIsUnfinished(s, id);
    }
  }

  /** The goroutine that takes a step, if it is not Start, Cancel, Close or a deadline. */
  predicate Takes(step: Step, id: Id) {
    match step
    case Spawn(x) => x == id
    case Refuse(x) => x == id
    case ObserveCompiling(x, _) => x == id
    case ObserveDeploying(x, _) => x == id
    case Return(x, _) => x == id
    case Decide(x) => x == id
    case Report(x, _) => x == id
    case FinishRun(x, _) => x == id
    case Done(x) => x == id
    case _ => false
  }

  lemma OthersAreUntouched(s: Sys, step: Step, id: Id)
    requires Enabled(s, step) && !step.Start? && !Takes(step, id) && At(s, id)
    ensures Record(Apply(s, step), id) == Record(s, id)
    ensures At(Apply(s, step), id) && Apply(s, step).threads[id] == s.threads[id]
  {
  }

  /** Only a goroutine that is not over writes its record. */
  lemma OverIsFrozen(s: Sys, step: Step, id: Id)
    requires Enabled(s, step) && !step.Start? && At(s, id) && s.threads[id].pc.Over?
    ensures Record(Apply(s, step), id) == Record(s, id)
    ensures At(Apply(s, step), id) && Apply(s, step).threads[id].pc.Over?
    ensures Apply(s, step).threads[id].pc.final == s.threads[id].pc.final
  {
    if Takes(step, id) {
      assert step == Done(id);
    } else {
      OthersAreUntouched(s, step, id);
    }
  }

  lemma StartFrame(s: Sys, id: Id, input: Input, x: Id)
    requires Inv(s) && Enabled(s, Start(id, input)) && x != id
    ensures Record(DoStart(s, id, input), x) == Record(s, x)
        || (Record(DoStart(s, id, input), x).None? && x in s.m.tasks && IsTerminal(s.m.tasks[x].task.status))
    ensures At(s, x) ==> At(DoStart(s, id, input), x) && DoStart(s, id, input).threads[x] == s.threads[x]
    ensures x in s.m.contexts ==>
        x in DoStart(s, id, input).m.contexts && DoStart(s, id, input).m.contexts[x] == s.m.contexts[x]
  {
    if ValidDeployment(input) && !Busy(s.m, input.service) {
      InsertKeepsThreads(s, id, input);
      InsertKeepsOrder(s, id, input);
      var before := Inserted(s, id, input);
      OrderIsIndexed(before);
      PruneFrame(before.m);
      PrunedRecord(before.m, x);
    }
  }

  /** A terminal record never changes again until it is pruned, and a pruned one
      never comes back. */
  lemma TerminalIsAbsorbing(s: Sys, step: Step, id: Id)
    requires Inv(s) && Enabled(s, step) && id in s.hist
    requires id in s.m.tasks ==> IsTerminal(s.m.tasks[id].task.status)
    ensures Record(Apply(s, step), id).None? || Record(Apply(s, step), id) == Record(s, id)
  {
    assert At(s, id) by { assert id in Elems(s.hist); }
    assert ThreadOk(s.threads[id], s.m.contexts[id], Record(s, id));
    if step.Start? {
      StartFrame(s, step.id, step.input, id);
    } else {
      if id in s.m.tasks { TerminalMeansOver(s, id); }
      OverIsFrozen(s, step, id);
    }
  }

  /** Where a goroutine goes when it takes a step itself. */
  lemma PhaseOfOwnStep(s: Sys, step: Step, id: Id)
    requires Enabled(s, step) && Takes(step, id) && Unfinished(s, id)
    ensures At(Apply(s, step), id)
    ensures Apply(s, step).threads[id].pc.Over?
        || StatusMove(PhaseAt(s.threads[id].pc), PhaseAt(Apply(s, step).threads[id].pc))
  {
  }

  lemma PhaseOfStep(s: Sys, step: Step, id: Id)
    requires Enabled(s, step) && !step.Start? && Unfinished(s, id)
    ensures At(Apply(s, step), id)
    ensures Apply(s, step).threads[id].pc.Over?
        || StatusMove(PhaseAt(s.threads[id].pc), PhaseAt(Apply(s, step).threads[id].pc))
  {
    if Takes(step, id) {
      PhaseOfOwnStep(s, step, id);
    } else {
      OthersAreUntouched(s, step, id);
    }
  }

  /** The recorded status as the goroutine's position determines it. */
  lemma StatusOfPc(s: Sys, id: Id)
    requires ThreadInv(s) && id in s.m.tasks
    ensures At(s, id)
    ensures s.threads[id].pc.Over? ==> IsTerminal(s.m.tasks[id].task.status)
    ensures !s.threads[id].pc.Over? ==>
        s.m.tasks[id].task.status == PhaseAt(s.threads[id].pc) && !IsTerminal(s.m.tasks[id].task.status)
  {
    TerminalMeansOver(s, id);
    assert ThreadOk(s.threads[id], s.m.contexts[id], Record(s, id));
  }

  lemma StatusOfOther(s: Sys, step: Step, id: Id)
    requires Inv(s) && Enabled(s, step) && !step.Start? && Unfinished(s, id)
    requires ThreadInv(Apply(s, step)) && id in s.m.tasks && id in Apply(s, step).m.tasks
    ensures StatusMove(s.m.tasks[id].task.status, Apply(s, step).m.tasks[id].task.status)
  {
    PhaseOfStep(s, step, id);
    StatusOfPc(s, id);
    StatusOfPc(Apply(s, step), id);
  }

  /** Status moves only forward: compiling, deploying, terminal. */
  lemma StatusMovesForward(s: Sys, step: Step, id: Id)
    requires Inv(s) && Enabled(s, step) && id in s.m.tasks && id in Apply(s, step).m.tasks
    ensures StatusMove(s.m.tasks[id].task.status, Apply(s, step).m.tasks[id].task.status)
  {
    KnownTask(s, id);
    if step.Start? {
      StartFrame(s, step.id, step.input, id);
    } else if s.threads[id].pc.Over? {
      OverIsFrozen(s, step, id);
    } else {
      StepKeepsInv(s, step);
      StatusOfOther(s, step, id);
    }
  }

  lemma OtherStepsKeepContexts(s: Sys, step: Step)
    requires Enabled(s, step) && !step.Start? && !step.CancelCall? && !step.Expire? && !step.CloseCancel?
    ensures Apply(s, step).m.contexts == s.m.contexts
  {
  }

  /** Cancellation and deadlines change only live contexts. */
  predicate KeepsEnded(before: map<Id, Context>, after: map<Id, Context>) {
    forall id :: id in before && before[id] != Live ==> id in after && after[id] == before[id]
  }

  lemma CancelKeepsEnded(st: State, id: Id)
    ensures KeepsEnded(st.contexts, CancelTask(st, id).contexts)
  {
  }

  lemma CancelAllKeepsEnded(st: State)
    ensures KeepsEnded(st.contexts, CancelAll(st).contexts)
  {
  }

  lemma ExpireKeepsEnded(s: Sys, id: Id)
    requires id in s.m.contexts
    ensures KeepsEnded(s.m.contexts, DoExpire(s, id).m.contexts)
  {
  }

  lemma OtherStepsKeepEnded(s: Sys, step: Step)
    requires Enabled(s, step) && !step.Start?
    ensures KeepsEnded(s.m.contexts, Apply(s, step).m.contexts)
  {
    match step
    case CancelCall(id) => CancelKeepsEnded(s.m, id);
    case Expire(id) => ExpireKeepsEnded(s, id);
    case CloseCancel => CancelAllKeepsEnded(s.m);
    case _ => OtherStepsKeepContexts(s, step);
  }

  /** A context that has ended stays as it is. */
  lemma EndedContextStays(s: Sys, step: Step, id: Id)
    requires Inv(s) && Enabled(s, step) && id in s.m.contexts && s.m.contexts[id] != Live
    ensures id in Apply(s, step).m.contexts && Apply(s, step).m.contexts[id] == s.m.contexts[id]
  {
    if step.Start? {
      assert step.id != id by { assert id in Elems(s.hist); }
      StartFrame(s, step.id, step.input, id);
    } else {
      OtherStepsKeepEnded(s, step);
    }
  }

  /* Whole runs */

  lemma {:induction false} EndedContextSticks(states: seq<Sys>, steps: seq<Step>, i: nat, j: nat, id: Id)
    requires IsRun(states, steps) && i <= j < |states|
    requires id in states[i].m.contexts && states[i].m.contexts[id] != Live
    ensures id in states[j].m.contexts && states[j].m.contexts[id] == states[i].m.contexts[id]
    decreases j
  {
    if i < j {
      EndedContextSticks(states, steps, i, j - 1, id);
      RunKeepsInv(states, steps, j - 1);
      EndedContextStays(states[j - 1], steps[j - 1], id);
    }
  }

  lemma KnownTask(s: Sys, id: Id)
    requires Inv(s) && id in s.m.tasks
    ensures At(s, id) && id in s.m.contexts && id in s.hist
  {
    assert id in Elems(s.hist);
  }

  lemma CancelEffect(s: Sys, id: Id)
    requires Inv(s) && CancelAnswer(s.m, id) == CancelCalled
    ensures id in s.m.contexts && id in CancelTask(s.m, id).contexts
    ensures CancelTask(s.m, id).contexts[id] == if s.m.contexts[id] == Live then CtxCanceled else s.m.contexts[id]
  {
    KnownTask(s, id);
  }

  /** The final status is canceled exactly if the context is. */
  lemma FinalMatchesContext(s: Sys, id: Id)
    requires ThreadInv(s) && id in s.m.contexts
    ensures At(s, id)
    ensures s.threads[id].pc.Over? ==> (s.threads[id].pc.final == Canceled <==> s.m.contexts[id] == CtxCanceled)
    ensures Finished(s.m, id) ==> (s.m.tasks[id].task.status == Canceled <==> s.m.contexts[id] == CtxCanceled)
  {
    assert ThreadOk(s.threads[id], s.m.contexts[id], Record(s, id));
    if id in s.m.tasks {
      TerminalMeansOver(s, id);
    }
  }

  lemma StepOfRun(states: seq<Sys>, steps: seq<Step>, i: nat)
    requires IsRun(states, steps) && i < |steps|
    ensures Inv(states[i]) && Enabled(states[i], steps[i])
    ensures Inv(states[i + 1]) && states[i + 1] == Apply(states[i], steps[i])
  {
    RunKeepsInv(states, steps, i);
    RunKeepsInv(states, steps, i + 1);
  }

  lemma CancelStep(states: seq<Sys>, steps: seq<Step>, i: nat, id: Id)
    requires IsRun(states, steps) && i < |steps|
    requires steps[i] == CancelCall(id) && CancelAnswer(states[i].m, id) == CancelCalled
    ensures id in states[i].m.contexts && id in states[i + 1].m.contexts
    ensures states[i + 1].m.contexts[id] == if states[i].m.contexts[id] == Expired then Expired else CtxCanceled
  {
    StepOfRun(states, steps, i);
    CancelEffect(states[i], id);
  }

  /** Cancel is decisive. Suppose it answers true at step `i`. Then, if the task's
      last critical section has run by state `j`, its status is canceled exactly if
      its deadline had not expired when Cancel was called, whatever deploy had
      already decided or reported by then. */
  lemma CancelIsDecisive(states: seq<Sys>, steps: seq<Step>, i: nat, j: nat, id: Id)
    requires IsRun(states, steps) && i < j < |states|
    requires steps[i] == CancelCall(id) && CancelAnswer(states[i].m, id) == CancelCalled
    ensures At(states[j], id) && id in states[i].m.contexts
    ensures states[j].threads[id].pc.Over? ==>
        (states[j].threads[id].pc.final == Canceled <==> states[i].m.contexts[id] != Expired)
    ensures Finished(states[j].m, id) ==>
        (states[j].m.tasks[id].task.status == Canceled <==> states[i].m.contexts[id] != Expired)
  {
    CancelStep(states, steps, i, id);
    EndedContextSticks(states, steps, i + 1, j, id);
    RunKeepsInv(states, steps, j);
    FinalMatchesContext(states[j], id);
  }

  lemma {:induction false} HistoryGrows(states: seq<Sys>, steps: seq<Step>, i: nat, j: nat)
    requires IsRun(states, steps) && i <= j < |states|
    ensures states[i].hist <= states[j].hist
    decreases j
  {
    if i < j {
      HistoryGrows(states, steps, i, j - 1);
      HistoryOfStep(states[j - 1], steps[j - 1]);
    }
  }

  lemma HistoryOfStep(s: Sys, step: Step)
    requires Enabled(s, step)
    ensures s.hist <= Apply(s, step).hist
  {
  }

  lemma TerminalStep(states: seq<Sys>, steps: seq<Step>, i: nat, id: Id)
    requires IsRun(states, steps) && i < |steps| && id in states[i].hist
    requires id in states[i].m.tasks ==> IsTerminal(states[i].m.tasks[id].task.status)
    ensures Record(states[i + 1], id).None? || Record(states[i + 1], id) == Record(states[i], id)
  {
    StepOfRun(states, steps, i);
    TerminalIsAbsorbing(states[i], steps[i], id);
  }

  lemma {:induction false} TerminalRun(states: seq<Sys>, steps: seq<Step>, i: nat, j: nat, id: Id)
    requires IsRun(states, steps) && i <= j < |states| && id in states[i].hist
    requires id in states[i].m.tasks ==> IsTerminal(states[i].m.tasks[id].task.status)
    ensures Record(states[j], id).None? || Record(states[j], id) == Record(states[i], id)
    decreases j
  {
    if i < j {
      TerminalRun(states, steps, i, j - 1, id);
      HistoryGrows(states, steps, i, j - 1);
      TerminalStep(states, steps, j - 1, id);
    }
  }

  /** If Cancel answers false at step `i`, the record never changes again: later
      it is either the same or pruned, and once pruned it stays away. */
  lemma RefusedCancelIsFinal(states: seq<Sys>, steps: seq<Step>, i: nat, j: nat, k: nat, id: Id)
    requires IsRun(states, steps) && i < j <= k < |states|
    requires steps[i] == CancelCall(id) && CancelAnswer(states[i].m, id) == AlreadyTerminal
    ensures Record(states[j], id).None? || Record(states[j], id) == Record(states[i], id)
    ensures Record(states[j], id).None? ==> Record(states[k], id).None?
  {
    RunKeepsInv(states, steps, i);
    KnownTask(states[i], id);
    TerminalRun(states, steps, i, j, id);
    HistoryGrows(states, steps, i, j);
    TerminalRun(states, steps, j, k, id);
  }

  /* Close */

  ghost predicate GapFree(s: Sys) {
    GapsIn(s) == NoGap
  }

  datatype Gaps = NoGap | SomeGap

  ghost function GapsIn(s: Sys): Gaps {
    if forall id :: At(s, id) ==> !s.threads[id].pc.Gap? then NoGap else SomeGap
  }

  ghost predicate AllTerminal(s: Sys) {
    forall id :: id in s.m.tasks ==> IsTerminal(s.m.tasks[id].task.status)
  }

  /** When the wait group is at zero, every task is terminal exactly if no Start is
      between its unlock and its wg.Add. */
  lemma DrainedUnlessStarting(s: Sys)
    requires ThreadInv(s) && s.wg == 0
    ensures AllTerminal(s) <==> GapFree(s)
    ensures GapFree(s) ==> forall id :: At(s, id) ==> s.threads[id].pc.Over?
  {
    assert Counted(s.threads) == {};
    forall id | At(s, id) ensures s.threads[id].pc.Gap? || s.threads[id].pc.Over? {
      assert id !in Counted(s.threads);
    }
    forall id | At(s, id) && s.threads[id].pc.Gap?
      ensures id in s.m.tasks && !IsTerminal(s.m.tasks[id].task.status)
    {
      assert ThreadOk(s.threads[id], s.m.contexts[id], Record(s, id));
    }
    forall id | id in s.m.tasks && s.threads[id].pc.Over? ensures IsTerminal(s.m.tasks[id].task.status) {
      TerminalMeansOver(s, id);
    }
  }

  lemma QuietStart(s: Sys, id: Id, input: Input)
    requires DoStart(s, id, input).hist == s.hist
    ensures DoStart(s, id, input) == s
  {
    assert |s.hist + [id]| != |s.hist|;
  }

  lemma QuietStep(s: Sys, step: Step)
    requires Inv(s) && Enabled(s, step) && Apply(s, step).hist == s.hist
    ensures Apply(s, step).m.tasks.Keys == s.m.tasks.Keys
    ensures GapFree(s) ==> GapFree(Apply(s, step))
  {
    if step.Start? {
      QuietStart(s, step.id, step.input);
    } else {
      FrameOfStep(s, step);
      if GapFree(s) {
        GapsOfStep(s, step);
      }
    }
  }

  lemma GapsOfStep(s: Sys, step: Step)
    requires Enabled(s, step) && !step.Start? && GapFree(s)
    ensures GapFree(Apply(s, step))
  {
  }

  lemma QuietHistory(states: seq<Sys>, steps: seq<Step>, i: nat, k: nat, j: nat)
    requires IsRun(states, steps) && i <= k <= j < |states| && states[j].hist == states[i].hist
    ensures states[k].hist == states[i].hist
  {
    HistoryGrows(states, steps, i, k);
    HistoryGrows(states, steps, k, j);
  }

  lemma QuietStepOfRun(states: seq<Sys>, steps: seq<Step>, i: nat)
    requires IsRun(states, steps) && i < |steps| && states[i + 1].hist == states[i].hist
    ensures states[i + 1].m.tasks.Keys == states[i].m.tasks.Keys
    ensures GapFree(states[i]) ==> GapFree(states[i + 1])
  {
    StepOfRun(states, steps, i);
    QuietStep(states[i], steps[i]);
  }

  /** While no Start is accepted, no task is pruned and no gap opens. */
  lemma {:induction false} QuietRun(states: seq<Sys>, steps: seq<Step>, i: nat, j: nat)
    requires IsRun(states, steps) && i <= j < |states|
    requires states[j].hist == states[i].hist && GapFree(states[i])
    ensures GapFree(states[j]) && states[j].m.tasks.Keys == states[i].m.tasks.Keys
    decreases j
  {
    if i < j {
      var k := j - 1;
      QuietHistory(states, steps, i, k, j);
      QuietRun(states, steps, i, k);
      QuietStepOfRun(states, steps, k);
    }
  }

  /** The running tasks whose context is live. */
  predicate LiveTask(st: State, id: Id) {
    id in st.tasks && !IsTerminal(st.tasks[id].task.status) && ContextOf(st, id) == Live
  }

  lemma CloseStep(states: seq<Sys>, steps: seq<Step>, i: nat, id: Id)
    requires IsRun(states, steps) && i < |steps| && steps[i] == CloseCancel && LiveTask(states[i].m, id)
    ensures id in states[i + 1].m.contexts && states[i + 1].m.contexts[id] == CtxCanceled
  {
    StepOfRun(states, steps, i);
    KnownTask(states[i], id);
    RunningIsUnfinished(states[i], id);
  }

  /** Close drains. It cancels at step `i` and sees the wait group at zero at step
      `j`. If no Start was in its gap at `i` and none is accepted in between, every
      task is terminal at `j`, and those that were running with a live context when
      Close began are still there and canceled. */
  lemma CloseDrainsAll(states: seq<Sys>, steps: seq<Step>, i: nat, j: nat)
    requires IsRun(states, steps) && i < j < |steps|
    requires steps[i] == CloseCancel && steps[j] == CloseDrained
    requires GapFree(states[i]) && states[j].hist == states[i].hist
    ensures AllTerminal(states[j])
    ensures forall id :: LiveTask(states[i].m, id) ==>
        id in states[j].m.tasks && states[j].m.tasks[id].task.status == Canceled
  {
    StepOfRun(states, steps, j);
    QuietRun(states, steps, i, j);
    DrainedUnlessStarting(states[j]);
    forall id | LiveTask(states[i].m, id)
      ensures id in states[j].m.tasks && states[j].m.tasks[id].task.status == Canceled
    {
      CloseStep(states, steps, i, id);
      EndedContextSticks(states, steps, i + 1, j, id);
      FinalMatchesContext(states[j], id);
    }
  }

  /** Without that condition Close can return while a task is compiling: a Start
      has inserted its task but not yet called wg.Add. */
  lemma CloseMissesStartingTask(id: Id, input: Input) returns (states: seq<Sys>, steps: seq<Step>)
    requires ValidDeployment(input)
    ensures IsRun(states, steps) && steps == [Start(id, input), CloseCancel, CloseDrained]
    ensures id in states[3].m.tasks && states[3].m.tasks[id].task.status == Compiling
  {
    var s1 := DoStart(INIT, id, input);
    assert !Busy(INIT.m, input.service);
    PruneOfOne(id, NewTask(input));
    assert [] + [id] == [id];
    assert s1.m == State(map[id := NewTask(input)], [id], map[id := Live]);
    var s2 := s1.(m := CancelAll(s1.m));
    states := [INIT, s1, s2, s2];
    steps := [Start(id, input), CloseCancel, CloseDrained];
  }

  lemma PruneOfOne(id: Id, m: Managed)
    ensures Prune(State(map[id := m], [id], map[id := Live])) == State(map[id := m], [id], map[id := Live])
  {
  }
}
