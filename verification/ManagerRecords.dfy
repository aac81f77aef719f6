/** What the record of a task says, over whole runs: every field against what was asked
    for, what was delivered, what the runner returned and what the clock said. */
module ManagerRecords {
  import opened Text
  import opened Selectors
  import opened Manager
  import opened ManagerSystem
  import opened ManagerRuns
  import LogWindow
  import RestartLog
  import RunReport

  /** The history of one task, from the steps alone. */
  datatype Story = Story(input: Input, sent: map<Status, Delivery>, result: Option<RunResult>, ended: Option<Clock>)

  type Stories = map<Id, Story>

  function Sent(stories: Stories, id: Id, status: Status, delivery: Delivery): Stories {
    if id in stories then stories[id := stories[id].(sent := stories[id].sent[status := delivery])] else stories
  }

  /** What one step adds. */
  function Follow(stories: Stories, s: Sys, step: Step): Stories
    requires Enabled(s, step)
  {
    match step
    case Start(id, input) =>
      if ValidDeployment(input) && !Busy(s.m, input.service) then stories[id := Story(input, map[], None, None)]
      else stories
    case ObserveCompiling(id, delivery) => Sent(stories, id, Compiling, delivery)
    case ObserveDeploying(id, delivery) => Sent(stories, id, Deploying, delivery)
    case Report(id, delivery) => Sent(stories, id, s.threads[id].pc.verdict, delivery)
    case Return(id, result) =>
      if id in stories then stories[id := stories[id].(result := Some(result))] else stories
    case FinishRun(id, now) =>
      if id in stories then stories[id := stories[id].(ended := Some(now))] else stories
    case _ => stories
  }

  function StoriesOf(states: seq<Sys>, steps: seq<Step>, i: nat): Stories
    requires IsRun(states, steps) && i < |states|
  {
    if i == 0 then map[] else Follow(StoriesOf(states, steps, i - 1), states[i - 1], steps[i - 1])
  }

  /* What a record should say */

  /** The script has printed the phase marker. */
  predicate HasDeployed(pc: Pc) {
    match pc
    case Running(d) => d
    case Returned(d, _) => d
    case Decided(d, _, _) => d
    case Reported(d, _, _) => d
    case Over(d, _, _, _) => d
    case _ => false
  }

  predicate HasReturned(pc: Pc) {
    pc.Returned? || pc.Decided? || pc.Reported?
  }

  const START_LINE := "\U{5F00}\U{59CB}\U{7F16}\U{8BD1}"
  const DEPLOY_LINE := "\U{7F16}\U{8BD1}\U{5B8C}\U{6210}\U{FF0C}\U{5F00}\U{59CB}\U{90E8}\U{7F72}"
  const CANCELED_LINE := "\U{90E8}\U{7F72}\U{5DF2}\U{53D6}\U{6D88}"
  const SUCCESS_LINE := "\U{90E8}\U{7F72}\U{6210}\U{529F}"

  /** The lines logged behind the first one. */
  function LinesAt(pc: Pc, result: Option<RunResult>): seq<string> {
    (if HasDeployed(pc) then [DEPLOY_LINE] else [])
    + (if pc.Over? && result.Some? && result.value.error.Some?
       then [RunReport.Concise(result.value.error.value)] else [])
    + (if pc.Over? && pc.final == Canceled then [CANCELED_LINE]
       else if pc.Over? && pc.final == Succeeded then [SUCCESS_LINE]
       else [])
  }

  /** The fields of a record before the end of its run. */
  predicate Unended(t: Task, story: Story, pc: Pc) {
    && story.ended.None?
    && t.stage == (if HasDeployed(pc) then "deploying" else "compiling")
    && t.revision == "" && t.results == [] && t.error == "" && t.completedAt.None? && t.durationMs == 0
    && (HasReturned(pc) ==> story.result == Some(pc.result))
  }

  /** And after it. */
  predicate HasEnded(t: Task, story: Story, final: Status) {
    && story.result.Some? && story.ended.Some?
    && t.stage == (match final case Succeeded => "completed" case Canceled => "canceled" case _ => "failed")
    && t.revision == RestartLog.ParsedRevision(story.result.value.output)
    && t.results == RestartLog.ParseOutput(story.result.value.output)
    && t.error == (if story.result.value.error.Some? then RunReport.Concise(story.result.value.error.value) else "")
    && t.completedAt == Some(story.ended.value.now) && t.durationMs == story.ended.value.elapsedMs
    && (final == Succeeded ==> story.result.value.error.None?)
    && (final == Failed || final == CompileFailed ==> story.result.value.error.Some?)
  }

  ghost predicate Tells(t: Task, story: Story, pc: Pc) {
    && t.service == story.input.service && t.processes == story.input.processes && t.slack == story.sent
    && LogWindow.IsWindow(t.logs, LogWindow.History([START_LINE], LinesAt(pc, story.result)))
    && (!pc.Over? ==> Unended(t, story, pc))
    && (pc.Over? ==> HasEnded(t, story, pc.final))
  }

  datatype Answer = Faithful | Unfaithful

  /** `Tells` as a value, so that it is looked at one record at a time. */
  ghost function Look(t: Task, story: Story, pc: Pc): Answer {
    if Tells(t, story, pc) then Faithful else Unfaithful
  }

  ghost predicate RecordsTell(s: Sys, stories: Stories)
    requires Keyed(s)
  {
    TellAll(s.m.tasks, s.threads, stories)
  }

  ghost predicate TellAll(tasks: map<Id, Managed>, threads: map<Id, Thread>, stories: Stories)
    requires tasks.Keys <= threads.Keys
  {
    && threads.Keys == stories.Keys
    && forall id :: id in tasks ==> Look(tasks[id].task, stories[id], threads[id].pc) == Faithful
  }

  /* One record */

  lemma {:induction false} HistoryOfSum(first: seq<string>, a: seq<string>, b: seq<string>)
    ensures LogWindow.History(first, a + b) == LogWindow.History(LogWindow.History(first, a), b)
    decreases |b|
  {
    if b == [] {
      assert a + b == a;
    } else {
      var n := |b| - 1;
      assert (a + b)[..|a + b| - 1] == a + b[..n];
      HistoryOfSum(first, a, b[..n]);
    }
  }

  lemma FirstTells(t: Task, input: Input)
    requires StartsAs(t, input)
    ensures Look(t, Story(input, map[], None, None), Gap) == Faithful
  {
    ByteLenBound(START_LINE);
    assert t.logs == [START_LINE] && t.logs[1..] == [] && t.logs[0..] == t.logs;
    assert LogWindow.LogBytes(t.logs) == ByteLen(START_LINE) + LogWindow.LogBytes([]);
    assert LogWindow.WindowAt(t.logs, [START_LINE], 0);
  }

  /** A move that neither touches the record nor ends the run. */
  lemma MoveTells(t: Task, story: Story, story': Story, pc: Pc, pc': Pc)
    requires Look(t, story, pc) == Faithful && pc.Over? == pc'.Over? && HasDeployed(pc) == HasDeployed(pc')
    requires pc.Over? ==> pc.final == pc'.final && story' == story
    requires story' == story.(result := story'.result) && (HasReturned(pc') ==> story'.result == Some(pc'.result))
    ensures Look(t, story', pc') == Faithful
  {
    assert LinesAt(pc', story'.result) == LinesAt(pc, story.result);
  }

  /** What a notification does to a record, but for its log. */
  predicate NotesAs(t: Task, before: Task, status: Status, delivery: Delivery) {
    && t.service == before.service && t.processes == before.processes
    && t.slack == before.slack[status := delivery]
    && t.stage == (if status == Compiling then "compiling"
                   else if status == Deploying then "deploying"
                   else before.stage)
    && t.revision == before.revision && t.results == before.results && t.error == before.error
    && t.completedAt == before.completedAt && t.durationMs == before.durationMs
  }

  function AllLines(story: Story, pc: Pc): seq<string> {
    LogWindow.History([START_LINE], LinesAt(pc, story.result))
  }

  /** A notification. */
  lemma NoteTells(t: Task, t': Task, story: Story, status: Status, delivery: Delivery, pc: Pc, pc': Pc)
    requires Look(t, story, pc) == Faithful && !pc.Over? && !pc'.Over?
    requires NotesAs(t', t, status, delivery)
    requires LogWindow.IsWindow(t'.logs, LogWindow.History(AllLines(story, pc), PhaseLines(status)))
    requires status == Compiling ==> !HasDeployed(pc')
    requires HasDeployed(pc') == (HasDeployed(pc) || status == Deploying) && (status == Deploying ==> !HasDeployed(pc))
    requires HasReturned(pc') ==> story.result == Some(pc'.result)
    ensures Look(t', story.(sent := story.sent[status := delivery]), pc') == Faithful
  {
    HistoryOfSum([START_LINE], LinesAt(pc, story.result), PhaseLines(status));
    assert LinesAt(pc', story.result) == LinesAt(pc, story.result) + PhaseLines(status) by {
      LinesOfPhase(pc, pc', story.result, status);
    }
  }

  lemma LinesOfPhase(pc: Pc, pc': Pc, result: Option<RunResult>, status: Status)
    requires !pc.Over? && !pc'.Over?
    requires HasDeployed(pc') == (HasDeployed(pc) || status == Deploying) && (status == Deploying ==> !HasDeployed(pc))
    ensures LinesAt(pc', result) == LinesAt(pc, result) + PhaseLines(status)
  {
    assert COMPILED == DEPLOY_LINE;
  }

  /** The end. */
  lemma EndTells(m: Managed, t': Task, story: Story, ctx: Context, now: Clock, pc: Pc)
    requires Look(m.task, story, pc) == Faithful && pc.Reported? && m.finalStatus == Some(pc.verdict)
    requires VerdictOk(pc.deploying, pc.verdict, pc.result.error.Some?, ctx)
    requires EndsAs(t', m, ctx, pc.result, now)
    requires LogWindow.IsWindow(t'.logs, LogWindow.History(AllLines(story, pc), FinalLines(ctx, pc.result)))
    ensures Look(t', story.(ended := Some(now)), Over(pc.deploying, pc.verdict, t'.status, true)) == Faithful
  {
    assert Tells(m.task, story, pc);
    EndFields(m, t', story, ctx, now, pc);
    HistoryOfSum([START_LINE], LinesAt(pc, story.result), FinalLines(ctx, pc.result));
    LinesOfEnd(pc, ctx, t'.status);
    var over := Over(pc.deploying, pc.verdict, t'.status, true);
    assert LogWindow.IsWindow(t'.logs, AllLines(story.(ended := Some(now)), over));
    assert Tells(t', story.(ended := Some(now)), over);
  }

  lemma EndFields(m: Managed, t': Task, story: Story, ctx: Context, now: Clock, pc: Pc)
    requires Unended(m.task, story, pc) && pc.Reported? && m.finalStatus == Some(pc.verdict)
    requires VerdictOk(pc.deploying, pc.verdict, pc.result.error.Some?, ctx)
    requires EndsAs(t', m, ctx, pc.result, now)
    ensures HasEnded(t', story.(ended := Some(now)), t'.status)
    ensures t'.status == Canceled <==> ctx == CtxCanceled
    ensures t'.status == Succeeded <==> ctx != CtxCanceled && pc.result.error.None?
  {
  }

  lemma LinesOfEnd(pc: Pc, ctx: Context, final: Status)
    requires pc.Reported? && (final == Canceled <==> ctx == CtxCanceled)
    requires final == Succeeded <==> ctx != CtxCanceled && pc.result.error.None?
    ensures LinesAt(Over(pc.deploying, pc.verdict, final, true), Some(pc.result))
         == LinesAt(pc, Some(pc.result)) + FinalLines(ctx, pc.result)
  {
  }

  /* Every step */

  /** A step that changes one goroutine, with its record and its story. */
  lemma OneRecord(s: Sys, s': Sys, stories: Stories, stories': Stories, id: Id)
    requires Keyed(s) && Keyed(s') && RecordsTell(s, stories)
    requires s'.threads.Keys == stories'.Keys
    requires forall x :: x in s.threads && x != id ==>
        x in s'.threads && s'.threads[x] == s.threads[x] && stories'[x] == stories[x]
    requires forall x :: x in s'.m.tasks && x != id ==> x in s.m.tasks && s'.m.tasks[x] == s.m.tasks[x]
    requires id in s'.m.tasks ==> Look(s'.m.tasks[id].task, stories'[id], s'.threads[id].pc) == Faithful
    ensures RecordsTell(s', stories')
  {
    forall x | x in s'.m.tasks ensures Look(s'.m.tasks[x].task, stories'[x], s'.threads[x].pc) == Faithful {
      if x != id {
        assert Look(s.m.tasks[x].task, stories[x], s.threads[x].pc) == Faithful;
      }
    }
  }

  lemma TellsNow(s: Sys, stories: Stories, id: Id)
    requires Keyed(s) && RecordsTell(s, stories) && id in s.m.tasks
    ensures Tells(s.m.tasks[id].task, stories[id], s.threads[id].pc)
  {
    assert Look(s.m.tasks[id].task, stories[id], s.threads[id].pc) == Faithful;
  }

  /** A goroutine with its record and its story is put in, new or in place of the old. */
  lemma PutTells(s: Sys, s': Sys, stories: Stories, story: Story, id: Id, m: Managed, t: Thread)
    requires Keyed(s) && Keyed(s') && RecordsTell(s, stories)
    requires s'.m.tasks == s.m.tasks[id := m] && s'.threads == s.threads[id := t]
    requires Look(m.task, story, t.pc) == Faithful
    ensures RecordsTell(s', stories[id := story])
  {
    PutInMaps(s.m.tasks, s.threads, stories, story, id, m, t);
  }

  lemma PutInMaps(tasks: map<Id, Managed>, threads: map<Id, Thread>, stories: Stories, story: Story, id: Id,
                  m: Managed, t: Thread)
    requires tasks.Keys <= threads.Keys && TellAll(tasks, threads, stories)
    requires Look(m.task, story, t.pc) == Faithful
    ensures TellAll(tasks[id := m], threads[id := t], stories[id := story])
  {
  }

  lemma MoveKeepsRecords(s: Sys, stories: Stories, story': Story, id: Id, pc': Pc)
    requires Keyed(s) && RecordsTell(s, stories) && At(s, id)
    requires s.threads[id].pc.Over? == pc'.Over? && HasDeployed(s.threads[id].pc) == HasDeployed(pc')
    requires s.threads[id].pc.Over? ==> s.threads[id].pc.final == pc'.final && story' == stories[id]
    requires story' == stories[id].(result := story'.result)
    requires HasReturned(pc') ==> id in s.m.tasks ==> story'.result == Some(pc'.result)
    ensures RecordsTell(Move(s, id, pc'), stories[id := story'])
  {
    if id in s.m.tasks {
      MoveTells(s.m.tasks[id].task, stories[id], story', s.threads[id].pc, pc');
    }
    OneRecord(s, Move(s, id, pc'), stories, stories[id := story'], id);
  }

  lemma ObservedRecord(st: State, id: Id, status: Status, delivery: Delivery, all: seq<string>) returns (m: Managed)
    requires id in st.tasks && LogWindow.IsWindow(st.tasks[id].task.logs, all)
    ensures Observe(st, id, status, delivery) == st.(tasks := st.tasks[id := m])
    ensures NotesAs(m.task, st.tasks[id].task, status, delivery)
    ensures LogWindow.IsWindow(m.task.logs, LogWindow.History(all, PhaseLines(status)))
  {
    m := Observe(st, id, status, delivery).tasks[id];
    PhaseKeepsLogWindow(st.tasks[id].task.(slack := st.tasks[id].task.slack[status := delivery]), status, all);
  }

  lemma NotifyIsPut(s: Sys, id: Id, status: Status, delivery: Delivery, pc': Pc, m: Managed)
    requires At(s, id) && Observe(s.m, id, status, delivery) == s.m.(tasks := s.m.tasks[id := m])
    ensures Notify(s, id, status, delivery, pc').m.tasks == s.m.tasks[id := m]
    ensures Notify(s, id, status, delivery, pc').threads
         == s.threads[id := s.threads[id].(pc := pc', events := s.threads[id].events + [status])]
  {
  }

  lemma NotifyKeepsRecords(s: Sys, s': Sys, stories: Stories, id: Id, status: Status, delivery: Delivery, pc': Pc)
    requires Keyed(s) && RecordsTell(s, stories) && At(s, id) && id in s.m.tasks
    requires Keyed(s') && s' == Notify(s, id, status, delivery, pc')
    requires !s.threads[id].pc.Over? && !pc'.Over? && (status == Compiling ==> !HasDeployed(pc'))
    requires HasDeployed(pc') == (HasDeployed(s.threads[id].pc) || status == Deploying)
    requires status == Deploying ==> !HasDeployed(s.threads[id].pc)
    requires HasReturned(pc') ==> HasReturned(s.threads[id].pc) && pc'.result == s.threads[id].pc.result
    ensures RecordsTell(s', Sent(stories, id, status, delivery))
  {
    var t, story := s.threads[id], stories[id];
    if HasReturned(pc') {
      ResultNow(s, stories, id);
    }
    WindowNow(s, stories, id);
    var m := ObservedRecord(s.m, id, status, delivery, AllLines(story, t.pc));
    NoteTells(s.m.tasks[id].task, m.task, story, status, delivery, t.pc, pc');
    NotifyIsPut(s, id, status, delivery, pc', m);
    PutTells(s, s', stories, story.(sent := story.sent[status := delivery]), id, m,
             t.(pc := pc', events := t.events + [status]));
  }

  lemma WindowNow(s: Sys, stories: Stories, id: Id)
    requires Keyed(s) && RecordsTell(s, stories) && id in s.m.tasks
    ensures LogWindow.IsWindow(s.m.tasks[id].task.logs, AllLines(stories[id], s.threads[id].pc))
  {
    TellsNow(s, stories, id);
  }

  lemma ResultNow(s: Sys, stories: Stories, id: Id)
    requires Keyed(s) && RecordsTell(s, stories) && id in s.m.tasks && HasReturned(s.threads[id].pc)
    ensures stories[id].result == Some(s.threads[id].pc.result)
  {
    TellsNow(s, stories, id);
  }

  lemma EndedRecord(st: State, id: Id, result: RunResult, now: Clock, all: seq<string>) returns (m: Managed)
    requires id in st.tasks && LogWindow.IsWindow(st.tasks[id].task.logs, all)
    ensures Finish(st, id, result, now) == st.(tasks := st.tasks[id := m])
    ensures EndsAs(m.task, st.tasks[id], ContextOf(st, id), result, now)
    ensures LogWindow.IsWindow(m.task.logs, LogWindow.History(all, FinalLines(ContextOf(st, id), result)))
  {
    m := Finish(st, id, result, now).tasks[id];
    FinishedTaskMeans(st.tasks[id], ContextOf(st, id), result, now);
    FinishKeepsLogWindow(st.tasks[id], ContextOf(st, id), result, now, all);
  }

  lemma EndIsPut(s: Sys, id: Id, now: Clock, m: Managed)
    requires At(s, id) && s.threads[id].pc.Reported? && id in s.m.tasks
    requires Finish(s.m, id, s.threads[id].pc.result, now) == s.m.(tasks := s.m.tasks[id := m])
    ensures DoFinish(s, id, now).m.tasks == s.m.tasks[id := m]
    ensures DoFinish(s, id, now).threads == s.threads[id := Ended(s.threads[id], m)]
  {
  }

  lemma FinishKeepsRecords(s: Sys, s': Sys, stories: Stories, id: Id, now: Clock)
    requires Keyed(s) && RecordsTell(s, stories) && At(s, id) && id in s.m.tasks && s.threads[id].pc.Reported?
    requires Keyed(s') && s' == DoFinish(s, id, now)
    requires s.m.tasks[id].finalStatus == Some(s.threads[id].pc.verdict)
    requires PcOk(s.threads[id].pc, s.m.contexts[id])
    ensures RecordsTell(s', stories[id := stories[id].(ended := Some(now))])
  {
    var t, story := s.threads[id], stories[id];
    WindowNow(s, stories, id);
    var m := EndedRecord(s.m, id, t.pc.result, now, AllLines(story, t.pc));
    EndTells(s.m.tasks[id], m.task, story, s.m.contexts[id], now, t.pc);
    EndIsPut(s, id, now, m);
    PutTells(s, s', stories, story.(ended := Some(now)), id, m, Ended(t, m));
  }

  lemma StartKeepsRecords(s: Sys, stories: Stories, id: Id, input: Input)
    requires Inv(s) && RecordsTell(s, stories) && Enabled(s, Start(id, input))
    requires ValidDeployment(input) && !Busy(s.m, input.service)
    ensures Keyed(DoStart(s, id, input))
    ensures RecordsTell(DoStart(s, id, input), stories[id := Story(input, map[], None, None)])
  {
    StartKeeps(s, id, input);
    InsertKeepsThreads(s, id, input);
    InsertKeepsOrder(s, id, input);
    OrderIsIndexed(Inserted(s, id, input));
    FirstTells(NewTask(input).task, input);
    PutTells(s, Inserted(s, id, input), stories, Story(input, map[], None, None), id, NewTask(input), NewThread(input));
    PruneTells(Inserted(s, id, input), stories[id := Story(input, map[], None, None)]);
  }

  lemma StartStepKeepsRecords(s: Sys, stories: Stories, id: Id, input: Input)
    requires Inv(s) && RecordsTell(s, stories) && Enabled(s, Start(id, input))
    ensures Keyed(DoStart(s, id, input))
    ensures RecordsTell(DoStart(s, id, input), Follow(stories, s, Start(id, input)))
  {
    if ValidDeployment(input) && !Busy(s.m, input.service) {
      StartKeepsRecords(s, stories, id, input);
    }
  }

  lemma PruneTells(s: Sys, stories: Stories)
    requires Keyed(s) && RecordsTell(s, stories) && Indexed(s.m)
    ensures Keyed(s.(m := Prune(s.m))) && RecordsTell(s.(m := Prune(s.m)), stories)
  {
    PruneFrame(s.m);
    var s' := s.(m := Prune(s.m));
    forall x | x in s'.m.tasks ensures Look(s'.m.tasks[x].task, stories[x], s'.threads[x].pc) == Faithful {
      PrunedRecord(s.m, x);
      assert Look(s.m.tasks[x].task, stories[x], s.threads[x].pc) == Faithful;
    }
  }

  /** Every step keeps every record faithful to its story. */
  lemma StepKeepsRecords(s: Sys, stories: Stories, step: Step)
    requires Inv(s) && RecordsTell(s, stories) && Enabled(s, step)
    ensures Keyed(Apply(s, step)) && RecordsTell(Apply(s, step), Follow(stories, s, step))
  {
    StepKeepsKeyed(s, step);
    if step.Start? {
      StartStepKeepsRecords(s, stories, step.id, step.input);
    } else if step.CancelCall? || step.Expire? || step.CloseCancel? || step.CloseDrained? {
      ContextStepKeepsRecords(s, stories, step);
    } else {
      ThreadNow(s, step.id);
      RefuseNeverHappens(s, step.id);
      ThreadStepKeepsRecords(s, stories, step);
    }
  }

  lemma StepKeepsKeyed(s: Sys, step: Step)
    requires Inv(s) && Enabled(s, step)
    ensures Keyed(Apply(s, step))
  {
    StepKeepsInv(s, step);
  }

  lemma ThreadNow(s: Sys, id: Id)
    requires ThreadInv(s) && At(s, id)
    ensures ThreadOk(s.threads[id], s.m.contexts[id], Record(s, id))
  {
  }

  lemma ContextStepKeepsRecords(s: Sys, stories: Stories, step: Step)
    requires Keyed(s) && RecordsTell(s, stories) && Enabled(s, step) && Keyed(Apply(s, step))
    requires step.CancelCall? || step.Expire? || step.CloseCancel? || step.CloseDrained?
    ensures RecordsTell(Apply(s, step), stories)
  {
    ContextStepFrame(s, step);
  }

  lemma ContextStepFrame(s: Sys, step: Step)
    requires Enabled(s, step)
    requires step.CancelCall? || step.Expire? || step.CloseCancel? || step.CloseDrained?
    ensures Apply(s, step).m.tasks == s.m.tasks && Apply(s, step).threads == s.threads
  {
  }

  /** The steps of one goroutine. */
  lemma ThreadStepKeepsRecords(s: Sys, stories: Stories, step: Step)
    requires Keyed(s) && RecordsTell(s, stories) && Enabled(s, step) && Keyed(Apply(s, step))
    requires !(step.Start? || step.CancelCall? || step.Expire? || step.CloseCancel? || step.CloseDrained?)
    requires !step.Refuse? && ThreadOk(s.threads[step.id], s.m.contexts[step.id], Record(s, step.id))
    ensures RecordsTell(Apply(s, step), Follow(stories, s, step))
  {
    if step.FinishRun? {
      FinishKeepsRecords(s, Apply(s, step), stories, step.id, step.now);
    } else if step.ObserveCompiling? {
      CompilingKeepsRecords(s, Apply(s, step), stories, step.id, step.delivery);
    } else if step.ObserveDeploying? {
      DeployingKeepsRecords(s, Apply(s, step), stories, step.id, step.delivery);
    } else if step.Report? {
      ReportKeepsRecords(s, Apply(s, step), stories, step.id, step.delivery);
    } else {
      MoveStepKeepsRecords(s, stories, step);
    }
  }

  lemma CompilingKeepsRecords(s: Sys, s': Sys, stories: Stories, id: Id, delivery: Delivery)
    requires Keyed(s) && RecordsTell(s, stories) && At(s, id) && id in s.m.tasks && s.threads[id].pc.Ready?
    requires Keyed(s') && s' == Notify(s, id, Compiling, delivery, Running(false))
    ensures RecordsTell(s', Sent(stories, id, Compiling, delivery))
  {
    NotifyKeepsRecords(s, s', stories, id, Compiling, delivery, Running(false));
  }

  lemma DeployingKeepsRecords(s: Sys, s': Sys, stories: Stories, id: Id, delivery: Delivery)
    requires Keyed(s) && RecordsTell(s, stories) && At(s, id) && id in s.m.tasks && s.threads[id].pc == Running(false)
    requires Keyed(s') && s' == Notify(s, id, Deploying, delivery, Running(true))
    ensures RecordsTell(s', Sent(stories, id, Deploying, delivery))
  {
    NotifyKeepsRecords(s, s', stories, id, Deploying, delivery, Running(true));
  }

  lemma ReportKeepsRecords(s: Sys, s': Sys, stories: Stories, id: Id, delivery: Delivery)
    requires Keyed(s) && RecordsTell(s, stories) && At(s, id) && id in s.m.tasks && s.threads[id].pc.Decided?
    requires Keyed(s') && s' == DoReport(s, id, delivery) && PcOk(s.threads[id].pc, s.m.contexts[id])
    ensures RecordsTell(s', Sent(stories, id, s.threads[id].pc.verdict, delivery))
  {
    var pc := s.threads[id].pc;
    NotifyKeepsRecords(s, s', stories, id, pc.verdict, delivery, Reported(pc.deploying, pc.verdict, pc.result));
  }

  /** The goroutine moves on without touching its record. */
  lemma MoveStepKeepsRecords(s: Sys, stories: Stories, step: Step)
    requires Keyed(s) && RecordsTell(s, stories) && Enabled(s, step) && Keyed(Apply(s, step))
    requires step.Spawn? || step.Decide? || step.Done? || step.Return?
    ensures RecordsTell(Apply(s, step), Follow(stories, s, step))
  {
    if step.Return? {
      ReturnKeepsRecords(s, stories, step.id, step.result);
    } else if step.Decide? {
      DecideKeepsRecords(s, stories, step.id);
    } else if step.Spawn? {
      SpawnKeepsRecords(s, stories, step.id);
    } else {
      DoneKeepsRecords(s, stories, step.id);
    }
  }

  lemma SpawnKeepsRecords(s: Sys, stories: Stories, id: Id)
    requires Keyed(s) && RecordsTell(s, stories) && At(s, id) && s.threads[id].pc.Gap?
    ensures RecordsTell(Move(s, id, Ready).(wg := s.wg + 1), stories)
  {
    SameStory(s, stories, id, Ready);
  }

  lemma DoneKeepsRecords(s: Sys, stories: Stories, id: Id)
    requires Keyed(s) && RecordsTell(s, stories) && At(s, id) && s.threads[id].pc.Over?
    ensures RecordsTell(Move(s, id, s.threads[id].pc.(counted := false)).(wg := s.wg - 1), stories)
  {
    SameStory(s, stories, id, s.threads[id].pc.(counted := false));
  }

  lemma SameStory(s: Sys, stories: Stories, id: Id, pc': Pc)
    requires Keyed(s) && RecordsTell(s, stories) && At(s, id)
    requires s.threads[id].pc.Over? == pc'.Over? && HasDeployed(s.threads[id].pc) == HasDeployed(pc')
    requires s.threads[id].pc.Over? ==> s.threads[id].pc.final == pc'.final
    requires !HasReturned(pc')
    ensures RecordsTell(Move(s, id, pc'), stories)
  {
    MoveKeepsRecords(s, stories, stories[id], id, pc');
    assert stories[id := stories[id]] == stories;
  }

  lemma DecideKeepsRecords(s: Sys, stories: Stories, id: Id)
    requires Keyed(s) && RecordsTell(s, stories) && Enabled(s, Decide(id))
    ensures RecordsTell(DoDecide(s, id), stories)
  {
    if id in s.m.tasks {
      ResultNow(s, stories, id);
    }
    MoveKeepsRecords(s, stories, stories[id], id, DoDecide(s, id).threads[id].pc);
    assert stories[id := stories[id]] == stories;
  }

  lemma ReturnKeepsRecords(s: Sys, stories: Stories, id: Id, result: RunResult)
    requires Keyed(s) && RecordsTell(s, stories) && Enabled(s, Return(id, result))
    ensures RecordsTell(Move(s, id, Returned(s.threads[id].pc.deploying, result)),
                        stories[id := stories[id].(result := Some(result))])
  {
    MoveKeepsRecords(s, stories, stories[id].(result := Some(result)), id,
                     Returned(s.threads[id].pc.deploying, result));
  }

  /* Runs */

  /** In every state of every run, every record tells its story. */
  lemma {:induction false} RecordsTellTheirStories(states: seq<Sys>, steps: seq<Step>, i: nat)
    requires IsRun(states, steps) && i < |states|
    ensures Keyed(states[i]) && RecordsTell(states[i], StoriesOf(states, steps, i))
    decreases i
  {
    if i > 0 {
      RunKeepsInv(states, steps, i - 1);
      RecordsTellTheirStories(states, steps, i - 1);
      StepKeepsRecords(states[i - 1], StoriesOf(states, steps, i - 1), steps[i - 1]);
    }
  }

  /** The record of a finished deployment, field by field: status and stage, revision and
      process results of the output, the short error, the last delivery of each
      notification and the clock. */
  lemma FinalRecord(states: seq<Sys>, steps: seq<Step>, i: nat, id: Id)
    requires IsRun(states, steps) && i < |states|
    requires id in states[i].m.tasks && IsTerminal(states[i].m.tasks[id].task.status)
    ensures id in StoriesOf(states, steps, i)
    ensures var t, story := states[i].m.tasks[id].task, StoriesOf(states, steps, i)[id];
      && HasEnded(t, story, t.status) && t.slack == story.sent
      && t.service == story.input.service && t.processes == story.input.processes
  {
    RunKeepsInv(states, steps, i);
    RecordsTellTheirStories(states, steps, i);
    TerminalIsOver(states[i], id);
    TellsNow(states[i], StoriesOf(states, steps, i), id);
  }

  lemma TerminalIsOver(s: Sys, id: Id)
    requires ThreadInv(s) && id in s.m.tasks && IsTerminal(s.m.tasks[id].task.status)
    ensures s.threads[id].pc.Over? && s.threads[id].pc.final == s.m.tasks[id].task.status
  {
    assert ThreadOk(s.threads[id], s.m.contexts[id], Record(s, id));
  }
}
