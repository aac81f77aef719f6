/** The deployment job manager, internal/testdeploy/manager.go: what each of its
    critical sections does to the state behind the lock. */
module Manager {
  import opened Text
  import opened Selectors
  import LogWindow
  import RestartLog
  import RunReport

  const HISTORY_LIMIT: nat := 50

  /** What newDeploymentID draws; identifiers are assumed fresh. */
  datatype Id = Id(name: string)

  datatype Status = Compiling | Deploying | Succeeded | CompileFailed | Failed | Canceled

  predicate IsTerminal(s: Status) {
    s == Succeeded || s == CompileFailed || s == Failed || s == Canceled
  }

  datatype Delivery = Delivery(status: string, error: string)

  /** context.Context as far as its Err is concerned. */
  datatype Context = Live | CtxCanceled | Expired

  /** DeploymentTask */
  datatype Task = Task(
    service: string,
    processes: seq<string>,
    status: Status,
    stage: string,
    slack: map<Status, Delivery>,
    logs: seq<string>,
    results: seq<RestartLog.ProcessResult>,
    revision: string,
    error: string,
    completedAt: Option<int>,
    durationMs: int)

  /** managedTask; `canCancel` says that its cancel function is not nil. */
  datatype Managed = Managed(task: Task, canCancel: bool, finalStatus: Option<Status>)

  /** The clock at the end of a deployment, and the time since its start. */
  datatype Clock = Clock(now: int, elapsedMs: int)

  /** What the runner returned. */
  datatype RunResult = RunResult(output: string, error: Option<string>)

  /** The manager's fields, with the contexts its cancel functions act on. */
  datatype State = State(tasks: map<Id, Managed>, order: seq<Id>, contexts: map<Id, Context>)

  const INITIAL := State(map[], [], map[])

  function Elems(s: seq<Id>): set<Id> {
    set x | x in s
  }

  predicate NoDup(s: seq<Id>) {
    forall i, j :: 0 <= i < j < |s| ==> s[i] != s[j]
  }

  /** `order` lists the keys of `tasks`, each once. */
  ghost predicate Indexed(st: State) {
    NoDup(st.order) && Elems(st.order) == st.tasks.Keys && st.tasks.Keys <= st.contexts.Keys
  }

  /* Critical sections as functions of the state */

  function NewTask(input: Input): Managed {
    Managed(
      Task(input.service, input.processes, Compiling, "compiling", map[],
           ["\U{5F00}\U{59CB}\U{7F16}\U{8BD1}"], [], "", "", None, 0),
      true, None)
  }

  predicate Busy(st: State, service: string) {
    exists id :: id in st.tasks && st.tasks[id].task.service == service && !IsTerminal(st.tasks[id].task.status)
  }

  /** pruneLocked */
  function Prune(st: State): State
    decreases |st.order|
  {
    if |st.order| <= HISTORY_LIMIT then st
    else
      var id := st.order[0];
      if id in st.tasks && !IsTerminal(st.tasks[id].task.status) then st
      else Prune(st.(tasks := st.tasks - {id}, order := st.order[1..]))
  }

  function Insert(st: State, id: Id, input: Input): State {
    Prune(State(st.tasks[id := NewTask(input)], st.order + [id], st.contexts[id := Live]))
  }

  /** The locked part of Start. */
  function StartTask(st: State, id: Id, input: Input): State {
    if Busy(st, input.service) then st else Insert(st, id, input)
  }

  function NotePhase(t: Task, status: Status): Task {
    if status == Compiling then t.(status := Compiling, stage := "compiling")
    else if status == Deploying then
      t.(status := Deploying, stage := "deploying",
         logs := LogWindow.Append(t.logs, COMPILED))
    else t
  }

  /** The event callback of run. */
  function Observe(st: State, id: Id, status: Status, delivery: Delivery): State {
    if id !in st.tasks then st
    else
      var m := st.tasks[id];
      var t := NotePhase(m.task.(slack := m.task.slack[status := delivery]), status);
      st.(tasks := st.tasks[id := Managed(t, m.canCancel, if IsTerminal(status) then Some(status) else m.finalStatus)])
  }

  function ContextOf(st: State, id: Id): Context {
    if id in st.contexts then st.contexts[id] else Live
  }

  /** The status after the second look at the context. */
  function FinishStatus(m: Managed, ctx: Context, failed: bool): Status {
    if ctx == CtxCanceled then Canceled
    else if !failed then Succeeded
    else if m.finalStatus.Some? then m.finalStatus.value
    else m.task.status
  }

  function AddLog(t: Task, line: string): (r: Task)
    ensures r == t.(logs := r.logs) && r.logs == LogWindow.Append(t.logs, line)
  {
    t.(logs := LogWindow.Append(t.logs, line))
  }

  function WithOutput(t: Task, result: RunResult, now: Clock): (r: Task)
    ensures r.service == t.service && r.slack == t.slack && r.status == t.status
  {
    var u := t.(completedAt := Some(now.now), durationMs := now.elapsedMs,
                revision := RestartLog.ParsedRevision(result.output), results := RestartLog.ParseOutput(result.output));
    if result.error.Some? then
      var e := RunReport.Concise(result.error.value);
      AddLog(u.(error := e), e)
    else u
  }

  function FinishedTask(m: Managed, ctx: Context, result: RunResult, now: Clock): (r: Task)
    ensures r.service == m.task.service && r.slack == m.task.slack
    ensures r.status == FinishStatus(m, ctx, result.error.Some?)
  {
    var t := WithOutput(m.task, result, now);
    if ctx == CtxCanceled then
      AddLog(t.(status := Canceled, stage := "canceled"), "\U{90E8}\U{7F72}\U{5DF2}\U{53D6}\U{6D88}")
    else if result.error.None? then
      AddLog(t.(status := Succeeded, stage := "completed"), "\U{90E8}\U{7F72}\U{6210}\U{529F}")
    else if m.finalStatus.Some? then t.(status := m.finalStatus.value, stage := "failed")
    else t
  }

  /** The last locked section of run, with its second look at the context. */
  /** The final record of a deployment, field by field: what was printed, what went wrong,
      how it ended, and the two readings of the clock. */
  predicate EndsAs(t: Task, m: Managed, ctx: Context, result: RunResult, now: Clock) {
    && t.service == m.task.service && t.processes == m.task.processes && t.slack == m.task.slack
    && t.completedAt == Some(now.now) && t.durationMs == now.elapsedMs
    && t.revision == RestartLog.ParsedRevision(result.output) && t.results == RestartLog.ParseOutput(result.output)
    && t.error == (if result.error.Some? then RunReport.Concise(result.error.value) else m.task.error)
    && (ctx == CtxCanceled ==> t.status == Canceled && t.stage == "canceled")
    && (ctx != CtxCanceled && result.error.None? ==> t.status == Succeeded && t.stage == "completed")
    && (ctx != CtxCanceled && result.error.Some? && m.finalStatus.Some? ==>
          t.status == m.finalStatus.value && t.stage == "failed")
    && (ctx != CtxCanceled && result.error.Some? && m.finalStatus.None? ==>
          t.status == m.task.status && t.stage == m.task.stage)
  }

  lemma FinishedTaskMeans(m: Managed, ctx: Context, result: RunResult, now: Clock)
    ensures EndsAs(FinishedTask(m, ctx, result, now), m, ctx, result, now)
  {
  }

  function Finish(st: State, id: Id, result: RunResult, now: Clock): State {
    if id !in st.tasks then st
    else
      var m := st.tasks[id];
      st.(tasks := st.tasks[id := Managed(FinishedTask(m, ContextOf(st, id), result, now), false, m.finalStatus)])
  }

  /** Calling a context's cancel function; only the first outcome sticks. */
  function CancelContext(contexts: map<Id, Context>, id: Id): map<Id, Context> {
    if id in contexts && contexts[id] == Live then contexts[id := CtxCanceled] else contexts
  }

  /** `NilCall` stands for calling a nil cancel function. */
  datatype CancelOutcome = NotFound | AlreadyTerminal | CancelCalled | NilCall

  function CancelAnswer(st: State, id: Id): CancelOutcome {
    if id !in st.tasks then NotFound
    else if IsTerminal(st.tasks[id].task.status) then AlreadyTerminal
    else if st.tasks[id].canCancel then CancelCalled
    else NilCall
  }

  /** Cancel */
  function CancelTask(st: State, id: Id): State {
    if CancelAnswer(st, id) == CancelCalled then st.(contexts := CancelContext(st.contexts, id)) else st
  }

  predicate Cancelable(st: State, id: Id) {
    id in st.tasks && !IsTerminal(st.tasks[id].task.status) && st.tasks[id].canCancel
  }

  /** The locked part of Close. */
  function CancelAll(st: State): State {
    st.(contexts := map id | id in st.contexts ::
      if Cancelable(st, id) && st.contexts[id] == Live then CtxCanceled else st.contexts[id])
  }

  /** The answer of Recent: identifiers, newest first. */
  function Newest(order: seq<Id>, limit: nat): (r: seq<Id>)
    ensures |r| == if |order| < limit then |order| else limit
  {
    seq(if |order| < limit then |order| else limit, i requires 0 <= i < |order| => order[|order| - 1 - i])
  }

  /* The log of a task */

  const COMPILED := "\U{7F16}\U{8BD1}\U{5B8C}\U{6210}\U{FF0C}\U{5F00}\U{59CB}\U{90E8}\U{7F72}"

  /** The lines that the end of a deployment logs. */
  function FinalLines(ctx: Context, result: RunResult): seq<string> {
    (if result.error.Some? then [RunReport.Concise(result.error.value)] else [])
    + (if ctx == CtxCanceled then ["\U{90E8}\U{7F72}\U{5DF2}\U{53D6}\U{6D88}"]
       else if result.error.None? then ["\U{90E8}\U{7F72}\U{6210}\U{529F}"]
       else [])
  }

  lemma ReplayOne(logs: seq<string>, line: string)
    ensures LogWindow.Replay(logs, [line]) == LogWindow.Append(logs, line)
  {
    assert [line][..0] == [] && LogWindow.Replay(logs, [line][..0]) == logs;
  }

  lemma ReplayTwo(logs: seq<string>, a: string, b: string)
    ensures LogWindow.Replay(logs, [a, b]) == LogWindow.Append(LogWindow.Append(logs, a), b)
  {
    ReplayOne(logs, a);
    assert [a, b][..1] == [a];
  }

  /** The lines that a notification logs. */
  function PhaseLines(status: Status): seq<string> {
    if status == Deploying then [COMPILED] else []
  }

  /** A notification keeps the log the window of all lines ever logged. */
  lemma PhaseKeepsLogWindow(t: Task, status: Status, all: seq<string>)
    requires LogWindow.IsWindow(t.logs, all)
    ensures LogWindow.IsWindow(NotePhase(t, status).logs, LogWindow.History(all, PhaseLines(status)))
  {
    LogWindow.ReplayKeepsWindow(t.logs, all, PhaseLines(status));
    ReplayOne(t.logs, COMPILED);
  }

  lemma FinalLogs(m: Managed, ctx: Context, result: RunResult, now: Clock)
    ensures FinishedTask(m, ctx, result, now).logs == LogWindow.Replay(m.task.logs, FinalLines(ctx, result))
  {
    var lines := FinalLines(ctx, result);
    if |lines| == 1 {
      assert lines == [lines[0]];
      ReplayOne(m.task.logs, lines[0]);
    } else if |lines| == 2 {
      assert lines == [lines[0], lines[1]];
      ReplayTwo(m.task.logs, lines[0], lines[1]);
    }
  }

  /** The end of a deployment keeps it too, with the short error in front of the line
      about the outcome. */
  lemma FinishKeepsLogWindow(m: Managed, ctx: Context, result: RunResult, now: Clock, all: seq<string>)
    requires LogWindow.IsWindow(m.task.logs, all)
    ensures LogWindow.IsWindow(FinishedTask(m, ctx, result, now).logs, LogWindow.History(all, FinalLines(ctx, result)))
  {
    LogWindow.ReplayKeepsWindow(m.task.logs, all, FinalLines(ctx, result));
    FinalLogs(m, ctx, result, now);
  }

  /* Facts about pruning */

  predicate Finished(st: State, id: Id) {
    id in st.tasks && IsTerminal(st.tasks[id].task.status)
  }

  predicate HeadStays(st: State) {
    |st.order| <= HISTORY_LIMIT || (st.order[0] in st.tasks && !IsTerminal(st.tasks[st.order[0]].task.status))
  }

  function WithoutHead(st: State): State
    requires st.order != []
  {
    st.(tasks := st.tasks - {st.order[0]}, order := st.order[1..])
  }

  /** How many tasks pruning removes. */
  function PruneCount(st: State): (k: nat)
    ensures k <= |st.order| && (k > 0 ==> |st.order| - k >= HISTORY_LIMIT)
    decreases |st.order|
  {
    if HeadStays(st) then 0 else 1 + PruneCount(WithoutHead(st))
  }

  /** Pruning removes a prefix of the order, and the tasks it names. */
  lemma {:induction false} PruneRemovesPrefix(st: State)
    requires Indexed(st)
    ensures Prune(st) == State(st.tasks - Elems(st.order[..PruneCount(st)]), st.order[PruneCount(st)..], st.contexts)
    decreases |st.order|
  {
    if HeadStays(st) {
      assert st.order[..0] == [] && st.order[0..] == st.order;
      assert st.tasks - Elems([]) == st.tasks;
    } else {
      var next := WithoutHead(st);
      HeadRemoved(st);
      PruneRemovesPrefix(next);
      var j := PruneCount(next);
      PrefixShift(st.order, j);
      RemoveTwice(st.tasks, {st.order[0]}, Elems(next.order[..j]));
    }
  }

  lemma RemoveTwice(m: map<Id, Managed>, a: set<Id>, b: set<Id>)
    ensures m - a - b == m - (a + b)
  {
  }

  lemma {:induction false} PruneKeepsIndexed(st: State)
    requires Indexed(st)
    ensures Indexed(Prune(st))
    decreases |st.order|
  {
    if !HeadStays(st) {
      HeadRemoved(st);
      PruneKeepsIndexed(WithoutHead(st));
    }
  }

  /** What it removes is terminal, and it stops only at the limit or at a task
      that is still running. */
  lemma {:induction false} PruneStopsAtRunning(st: State)
    requires Indexed(st)
    ensures forall i :: 0 <= i < PruneCount(st) ==> Finished(st, st.order[i])
    ensures |st.order| - PruneCount(st) > HISTORY_LIMIT ==> !Finished(st, st.order[PruneCount(st)])
    decreases |st.order|
  {
    if !HeadStays(st) {
      var next := WithoutHead(st);
      HeadRemoved(st);
      PruneStopsAtRunning(next);
      assert st.order[0] in Elems(st.order);
      forall i | 0 <= i < PruneCount(st) ensures Finished(st, st.order[i]) {
        if i > 0 {
          assert next.order[i - 1] == st.order[i];
          assert Finished(next, next.order[i - 1]);
        }
      }
      if |next.order| - PruneCount(next) > HISTORY_LIMIT {
        assert next.order[PruneCount(next)] == st.order[PruneCount(st)];
        assert st.order[PruneCount(st)] != st.order[0];
      }
    }
  }

  lemma PrefixShift(s: seq<Id>, j: nat)
    requires j < |s|
    ensures s[1..][j..] == s[j + 1..]
    ensures Elems(s[..j + 1]) == {s[0]} + Elems(s[1..][..j])
    ensures forall i :: 0 < i < |s| ==> s[1..][i - 1] == s[i]
  {
    assert s[..j + 1] == [s[0]] + s[1..][..j];
  }

  lemma ElemsOfTail(s: seq<Id>)
    requires s != [] && NoDup(s)
    ensures NoDup(s[1..]) && Elems(s[1..]) == Elems(s) - {s[0]}
  {
    assert s == [s[0]] + s[1..];
    forall x | x in s[1..] ensures x != s[0] {
      var i :| 0 <= i < |s| - 1 && s[1..][i] == x;
      assert s[i + 1] == x;
    }
  }

  lemma HeadRemoved(st: State)
    requires Indexed(st) && st.order != []
    ensures Indexed(st.(tasks := st.tasks - {st.order[0]}, order := st.order[1..]))
  {
    ElemsOfTail(st.order);
  }

  lemma NewTaskStays(st: State, id: Id)
    requires Indexed(st) && id in st.tasks && !IsTerminal(st.tasks[id].task.status)
    ensures id in Prune(st).tasks && Prune(st).tasks[id] == st.tasks[id] && Prune(st).contexts == st.contexts
  {
    PruneRemovesPrefix(st);
    PruneStopsAtRunning(st);
    assert forall i :: 0 <= i < PruneCount(st) ==> st.order[i] != id;
  }

  /** The first record of a deployment. */
  predicate StartsAs(t: Task, input: Input) {
    && t.service == input.service && t.processes == input.processes
    && t.status == Compiling && t.stage == "compiling" && t.slack == map[]
    && t.logs == ["\U{5F00}\U{59CB}\U{7F16}\U{8BD1}"]
    && t.results == [] && t.revision == "" && t.error == "" && t.completedAt.None? && t.durationMs == 0
  }

  /* The class */

  datatype StartResult = Invalid(error: InputError) | Conflict(running: Id) | Started(id: Id)

  class JobManager {
    var tasks: map<Id, Managed>
    var order: seq<Id>
    var contexts: map<Id, Context>

    function View(): State
      reads this
    {
      State(tasks, order, contexts)
    }

    ghost predicate Valid()
      reads this
    {
      Indexed(View())
    }

    /** NewManager */
    constructor ()
      ensures Valid() && View() == INITIAL
    {
      tasks, order, contexts := map[], [], map[];
    }

    /** Start up to the unlock: validation, the conflict scan over the task map in
        any order, insertion, pruning. */
    method Start(id: Id, input: Input) returns (r: StartResult)
      requires Valid() && id !in tasks && id !in order
      modifies this
      ensures Valid()
      ensures r.Invalid? <==> !ValidDeployment(input)
      ensures r.Conflict? <==> ValidDeployment(input) && Busy(old(View()), input.service)
      ensures r.Conflict? ==>
          r.running in old(tasks) && old(tasks)[r.running].task.service == input.service
          && !IsTerminal(old(tasks)[r.running].task.status)
      ensures r.Started? ==> r.id == id
      ensures View() == if ValidDeployment(input) then StartTask(old(View()), id, input) else old(View())
      ensures r.Started? ==>
          id in tasks && tasks[id].canCancel && tasks[id].finalStatus.None? && contexts[id] == Live
          && StartsAs(tasks[id].task, input)
    {
      var error := ValidateDeployment(input);
      if error.Some? {
        return Invalid(error.value);
      }
      var rest := tasks.Keys;
      while rest != {}
        invariant rest <= tasks.Keys
        invariant forall k :: k in tasks.Keys - rest ==>
            tasks[k].task.service != input.service || IsTerminal(tasks[k].task.status)
        decreases rest
      {
        var k :| k in rest;
        if tasks[k].task.service == input.service && !IsTerminal(tasks[k].task.status) {
          return Conflict(k);
        }
        rest := rest - {k};
      }
      assert !Busy(View(), input.service);
      ghost var before := View();
      tasks := tasks[id := NewTask(input)];
      order := order + [id];
      contexts := contexts[id := Live];
      assert Elems(order) == Elems(before.order) + {id};
      NewTaskStays(View(), id);
      PruneLocked();
      r := Started(id);
    }

    /** pruneLocked */
    method PruneLocked()
      requires Valid()
      modifies this
      ensures Valid() && View() == Prune(old(View()))
    {
      while |order| > HISTORY_LIMIT
        invariant Valid() && Prune(View()) == Prune(old(View()))
        decreases |order|
      {
        var id := order[0];
        if id in tasks && !IsTerminal(tasks[id].task.status) {
          return;
        }
        HeadRemoved(View());
        tasks := tasks - {id};
        order := order[1..];
      }
    }

    /** Status, stage and log line for a notification. */
    method RecordPhase(t: Task, status: Status) returns (r: Task)
      ensures r == NotePhase(t, status)
    {
      r := t;
      if status == Compiling || status == Deploying {
        r := r.(status := status, stage := if status == Compiling then "compiling" else "deploying");
      }
      if status == Deploying {
        var logs := LogWindow.AppendTaskLog(r.logs, COMPILED);
        r := r.(logs := logs);
      }
    }

    /** The callback that run passes to deploy. */
    method ObserveEvent(id: Id, status: Status, delivery: Delivery)
      requires Valid()
      modifies this
      ensures Valid() && View() == Observe(old(View()), id, status, delivery)
    {
      if id !in tasks {
        return;
      }
      var m := tasks[id];
      var t := RecordPhase(m.task.(slack := m.task.slack[status := delivery]), status);
      var finalStatus := m.finalStatus;
      if IsTerminal(status) {
        finalStatus := Some(status);
      }
      tasks := tasks[id := Managed(t, m.canCancel, finalStatus)];
    }

    /** The task's final fields. */
    method FinishTask(m: Managed, ctx: Context, result: RunResult, now: Clock) returns (t: Task)
      ensures t == FinishedTask(m, ctx, result, now) && EndsAs(t, m, ctx, result, now)
    {
      FinishedTaskMeans(m, ctx, result, now);
      var revision, results := RestartLog.ParseDeploymentOutput(result.output);
      t := m.task.(completedAt := Some(now.now), durationMs := now.elapsedMs, revision := revision, results := results);
      if result.error.Some? {
        var error := RunReport.ConciseDeployError(result.error.value);
        var logs := LogWindow.AppendTaskLog(t.logs, error);
        t := t.(error := error, logs := logs);
      }
      assert t == WithOutput(m.task, result, now);
      if ctx == CtxCanceled {
        var logs := LogWindow.AppendTaskLog(t.logs, "\U{90E8}\U{7F72}\U{5DF2}\U{53D6}\U{6D88}");
        t := t.(status := Canceled, stage := "canceled", logs := logs);
      } else if result.error.None? {
        var logs := LogWindow.AppendTaskLog(t.logs, "\U{90E8}\U{7F72}\U{6210}\U{529F}");
        t := t.(status := Succeeded, stage := "completed", logs := logs);
      } else if m.finalStatus.Some? {
        t := t.(status := m.finalStatus.value, stage := "failed");
      }
    }

    /** The end of run. */
    method FinishRun(id: Id, result: RunResult, now: Clock)
      requires Valid()
      modifies this
      ensures Valid() && View() == Finish(old(View()), id, result, now)
      ensures id in old(tasks) ==>
          id in tasks && !tasks[id].canCancel
          && EndsAs(tasks[id].task, old(tasks)[id], old(contexts)[id], result, now)
    {
      if id !in tasks {
        return;
      }
      var m := tasks[id];
      var t := FinishTask(m, contexts[id], result, now);
      tasks := tasks[id := Managed(t, false, m.finalStatus)];
    }

    /** Cancel; the call through the function value is left to the caller to make
        sense of when that value is nil. */
    method Cancel(id: Id) returns (answer: CancelOutcome)
      requires Valid()
      modifies this`contexts
      ensures Valid() && answer == CancelAnswer(old(View()), id)
      ensures View() == CancelTask(old(View()), id)
      ensures answer == NotFound <==> id !in tasks
      ensures answer == AlreadyTerminal <==> id in tasks && IsTerminal(tasks[id].task.status)
      ensures answer == CancelCalled ==>
          contexts == if old(contexts)[id] == Live then old(contexts)[id := CtxCanceled] else old(contexts)
      ensures answer != CancelCalled ==> contexts == old(contexts)
    {
      if id !in tasks {
        return NotFound;
      }
      if IsTerminal(tasks[id].task.status) {
        return AlreadyTerminal;
      }
      if !tasks[id].canCancel {
        return NilCall;
      }
      if contexts[id] == Live {
        contexts := contexts[id := CtxCanceled];
      }
      return CancelCalled;
    }

    /** The locked part of Close: the task map is visited in any order. */
    method CloseAll()
      requires Valid()
      modifies this`contexts
      ensures Valid() && View() == CancelAll(old(View()))
    {
      var rest := tasks.Keys;
      while rest != {}
        invariant rest <= tasks.Keys && contexts.Keys == old(contexts).Keys
        invariant forall id :: id in contexts ==>
            contexts[id] == (if Cancelable(old(View()), id) && id !in rest && old(contexts)[id] == Live
                             then CtxCanceled else old(contexts)[id])
        decreases rest
      {
        var id :| id in rest;
        if !IsTerminal(tasks[id].task.status) && tasks[id].canCancel && contexts[id] == Live {
          contexts := contexts[id := CtxCanceled];
        }
        rest := rest - {id};
      }
      assert contexts == CancelAll(old(View())).contexts;
    }

    /** Recent: the loop runs down the order from its end. */
    method Recent(requested: int) returns (r: Option<seq<Id>>)
      requires Valid()
      ensures r.None? <==> requested < 0 || requested > 50
      ensures r.Some? ==> r.value == Newest(order, if requested == 0 then 10 else requested)
      ensures r.Some? ==> forall i :: 0 <= i < |r.value| ==> r.value[i] == order[|order| - 1 - i]
      ensures r.Some? ==> forall i :: 0 <= i < |r.value| ==> r.value[i] in tasks
    {
      var limit := if requested == 0 then 10 else requested;
      if limit < 1 || limit > HISTORY_LIMIT {
        return None;
      }
      var result: seq<Id>, index := [], |order| - 1;
      while index >= 0 && |result| < limit
        invariant -1 <= index < |order| && |result| == |order| - 1 - index <= limit
        invariant result == Newest(order, |result|)
        decreases index
      {
        result := result + [order[index]];
        index := index - 1;
      }
      assert result == Newest(order, limit);
      forall i | 0 <= i < |result| ensures result[i] in tasks {
        assert result[i] in Elems(order);
      }
      r := Some(result);
    }

    /** Get and Logs: a copy of the record, or not found. */
    method Snapshot(id: Id) returns (t: Option<Task>)
      ensures t == if id in tasks then Some(tasks[id].task) else None
    {
      if id !in tasks {
        return None;
      }
      return Some(tasks[id].task);
    }
  }
}
