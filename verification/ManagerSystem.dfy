/** The deployment manager with its goroutines: one step per critical section,
    context change or wait-group operation, in any interleaving. */
module ManagerSystem {
  import opened Text
  import opened Selectors
  import opened Manager
  import DeploymentService

  /** Where the goroutine of one accepted Start is. */
  datatype Pc =
    | Gap                                                                  // Start has unlocked, wg.Add is to come
    | Ready                                                                // counted, nothing observed yet
    | Refused                                                              // deploy rejected the input
    | Running(deploying: bool)                                             // the script runs
    | Returned(deploying: bool, result: RunResult)                         // the runner has returned
    | Decided(deploying: bool, verdict: Status, result: RunResult)         // first look at the context done
    | Reported(deploying: bool, verdict: Status, result: RunResult)        // last notification observed
    | Over(deploying: bool, verdict: Status, final: Status, counted: bool) // last critical section done

  /** `problem` is what deploy's own call of validateDeployment returns for the
      goroutine's input, and `events` is a history variable: the notifications sent
      so far. */
  datatype Thread = Thread(service: string, problem: Option<InputError>, pc: Pc, events: seq<Status>)

  /** `hist` is a history variable: all accepted starts in order. */
  datatype Sys = Sys(m: State, threads: map<Id, Thread>, wg: int, hist: seq<Id>)

  const INIT := Sys(INITIAL, map[], 0, [])

  datatype Step =
    | Start(id: Id, input: Input)
    | Spawn(id: Id)
    | Refuse(id: Id)
    | ObserveCompiling(id: Id, delivery: Delivery)
    | ObserveDeploying(id: Id, delivery: Delivery)
    | Return(id: Id, result: RunResult)
    | Decide(id: Id)
    | Report(id: Id, delivery: Delivery)
    | FinishRun(id: Id, now: Clock)
    | Done(id: Id)
    | CancelCall(id: Id)
    | Expire(id: Id)
    | CloseCancel
    | CloseDrained

  function NewThread(input: Input): Thread {
    Thread(input.service, InputProblem(input), Gap, [])
  }

  predicate At(s: Sys, id: Id) {
    id in s.threads
  }

  predicate Enabled(s: Sys, step: Step) {
    match step
    case Start(id, _) => id !in s.hist && id !in s.threads && id !in s.m.tasks
    case Spawn(id) => At(s, id) && s.threads[id].pc.Gap?
    case Refuse(id) => At(s, id) && s.threads[id].pc.Ready? && s.threads[id].problem.Some?
    case ObserveCompiling(id, _) => At(s, id) && s.threads[id].pc.Ready? && s.threads[id].problem.None?
    case ObserveDeploying(id, _) => At(s, id) && s.threads[id].pc == Running(false)
    case Return(id, _) => At(s, id) && s.threads[id].pc.Running?
    case Decide(id) => At(s, id) && s.threads[id].pc.Returned?
    case Report(id, _) => At(s, id) && s.threads[id].pc.Decided?
    case FinishRun(id, _) => At(s, id) && (s.threads[id].pc.Reported? || s.threads[id].pc.Refused?)
    case Done(id) => At(s, id) && s.threads[id].pc.Over? && s.threads[id].pc.counted
    case CancelCall(_) => true
    case Expire(id) => id in s.m.contexts
    case CloseCancel => true
    case CloseDrained => s.wg == 0
  }

  function Move(s: Sys, id: Id, pc: Pc): Sys
    requires At(s, id)
  {
    s.(threads := s.threads[id := s.threads[id].(pc := pc)])
  }

  /** A notification: the callback's critical section, and the history. */
  function Notify(s: Sys, id: Id, status: Status, delivery: Delivery, pc: Pc): Sys
    requires At(s, id)
  {
    var t := s.threads[id];
    s.(m := Observe(s.m, id, status, delivery),
       threads := s.threads[id := t.(pc := pc, events := t.events + [status])])
  }

  const REFUSED := RunResult("", Some("invalid input"))

  function ResultOf(pc: Pc): RunResult {
    if pc.Reported? then pc.result else REFUSED
  }

  function DoStart(s: Sys, id: Id, input: Input): Sys {
    if !ValidDeployment(input) || Busy(s.m, input.service) then s
    else s.(m := Insert(s.m, id, input), threads := s.threads[id := NewThread(input)], hist := s.hist + [id])
  }

  function DoDecide(s: Sys, id: Id): Sys
    requires At(s, id) && s.threads[id].pc.Returned?
  {
    var pc := s.threads[id].pc;
    var verdict := DeploymentService.Verdict(ContextOf(s.m, id) == CtxCanceled, pc.result.error.Some?, pc.deploying);
    Move(s, id, Decided(pc.deploying, verdict, pc.result))
  }

  function DoReport(s: Sys, id: Id, delivery: Delivery): Sys
    requires At(s, id) && s.threads[id].pc.Decided?
  {
    var pc := s.threads[id].pc;
    Notify(s, id, pc.verdict, delivery, Reported(pc.deploying, pc.verdict, pc.result))
  }

  function DoFinish(s: Sys, id: Id, now: Clock): Sys
    requires At(s, id) && (s.threads[id].pc.Reported? || s.threads[id].pc.Refused?)
  {
    var pc := s.threads[id].pc;
    var m := Finish(s.m, id, ResultOf(pc), now);
    var final := if id in m.tasks then m.tasks[id].task.status else Failed;
    var over := if pc.Reported? then Over(pc.deploying, pc.verdict, final, true) else Over(false, Failed, final, true);
    Move(s, id, over).(m := m)
  }

  function DoExpire(s: Sys, id: Id): Sys
    requires id in s.m.contexts
  {
    if s.m.contexts[id] == Live then s.(m := s.m.(contexts := s.m.contexts[id := Expired])) else s
  }

  function Apply(s: Sys, step: Step): Sys
    requires Enabled(s, step)
  {
    match step
    case Start(id, input) => DoStart(s, id, input)
    case Spawn(id) => Move(s, id, Ready).(wg := s.wg + 1)
    case Refuse(id) => Move(s, id, Refused)
    case ObserveCompiling(id, delivery) => Notify(s, id, Compiling, delivery, Running(false))
    case ObserveDeploying(id, delivery) => Notify(s, id, Deploying, delivery, Running(true))
    case Return(id, result) => Move(s, id, Returned(s.threads[id].pc.deploying, result))
    case Decide(id) => DoDecide(s, id)
    case Report(id, delivery) => DoReport(s, id, delivery)
    case FinishRun(id, now) => DoFinish(s, id, now)
    case Done(id) => Move(s, id, s.threads[id].pc.(counted := false)).(wg := s.wg - 1)
    case CancelCall(id) => s.(m := CancelTask(s.m, id))
    case Expire(id) => DoExpire(s, id)
    case CloseCancel => s.(m := CancelAll(s.m))
    case CloseDrained => s
  }

  /* The invariant */

  function Record(s: Sys, id: Id): Option<Managed> {
    if id in s.m.tasks then Some(s.m.tasks[id]) else None
  }

  function Keys(events: seq<Status>): set<Status> {
    set e | e in events
  }

  /** The notifications sent when a goroutine is at `pc`. */
  function EventsAt(pc: Pc): seq<Status> {
    match pc
    case Running(d) => DeploymentService.Phases(d)
    case Returned(d, _) => DeploymentService.Phases(d)
    case Decided(d, _, _) => DeploymentService.Phases(d)
    case Reported(d, v, _) => DeploymentService.Phases(d) + [v]
    case Over(d, v, _, _) => DeploymentService.Phases(d) + [v]
    case _ => []
  }

  function PhaseAt(pc: Pc): Status {
    match pc
    case Running(true) => Deploying
    case Returned(true, _) => Deploying
    case Decided(true, _, _) => Deploying
    case Reported(true, _, _) => Deploying
    case _ => Compiling
  }

  /** The verdict came from a look at the context: it says canceled only if the
      context is, and otherwise what the result and the phase say. */
  predicate VerdictOk(deploying: bool, verdict: Status, failed: bool, ctx: Context) {
    || (verdict == Canceled && ctx == CtxCanceled)
    || verdict == DeploymentService.Verdict(false, failed, deploying)
  }

  predicate PcOk(pc: Pc, ctx: Context) {
    match pc
    case Refused => false
    case Decided(d, v, r) => VerdictOk(d, v, r.error.Some?, ctx)
    case Reported(d, v, r) => VerdictOk(d, v, r.error.Some?, ctx)
    case Over(d, v, f, _) =>
      && (VerdictOk(d, v, true, ctx) || VerdictOk(d, v, false, ctx))
      && (f == Canceled <==> ctx == CtxCanceled) && (f != Canceled ==> f == v)
    case _ => true
  }

  predicate RecordOk(t: Thread, m: Managed) {
    && m.task.service == t.service
    && m.task.slack.Keys == Keys(t.events)
    && (t.pc.Over? ==> m.task.status == t.pc.final && !m.canCancel)
    && (!t.pc.Over? ==> m.task.status == PhaseAt(t.pc) && m.canCancel)
    && (!t.pc.Over? ==> m.finalStatus == if t.pc.Reported? then Some(t.pc.verdict) else None)
  }

  predicate ThreadOk(t: Thread, ctx: Context, r: Option<Managed>) {
    && t.problem.None?
    && t.events == EventsAt(t.pc)
    && PcOk(t.pc, ctx)
    && (r.None? ==> t.pc.Over?)
    && (r.Some? ==> RecordOk(t, r.value))
  }

  /** The pruned order and the keys of the maps against the full history. */
  ghost predicate Shape(hist: seq<Id>, order: seq<Id>, tasks: set<Id>, contexts: set<Id>) {
    && NoDup(hist) && NoDup(order)
    && tasks == Elems(order) && contexts == Elems(hist)
    && |order| <= |hist| && order == hist[|hist| - |order|..]
    && (|order| < HISTORY_LIMIT ==> |order| == |hist|)
  }

  /** Half of the invariant: the order is a suffix of the history. */
  ghost predicate OrderInv(s: Sys) {
    Shape(s.hist, s.m.order, s.m.tasks.Keys, s.m.contexts.Keys)
  }

  predicate Unfinished(s: Sys, id: Id) {
    At(s, id) && !s.threads[id].pc.Over?
  }

  predicate Counts(pc: Pc) {
    !pc.Gap? && (pc.Over? ==> pc.counted)
  }

  /** The goroutines the wait group knows about. */
  function Counted(threads: map<Id, Thread>): set<Id> {
    set id | id in threads && Counts(threads[id].pc)
  }

  ghost predicate Keyed(s: Sys) {
    s.m.tasks.Keys <= s.m.contexts.Keys && s.m.contexts.Keys == s.threads.Keys
  }

  ghost predicate ThreadsOk(s: Sys)
    requires Keyed(s)
  {
    forall id :: id in s.threads ==> ThreadOk(s.threads[id], s.m.contexts[id], Record(s, id))
  }

  /** At most one unfinished deployment per service. */
  ghost predicate Exclusive(s: Sys) {
    forall a, b :: Unfinished(s, a) && Unfinished(s, b) && a != b ==> s.threads[a].service != s.threads[b].service
  }

  /** The other half: goroutines, records and contexts fit together, and the wait
      group counts the goroutines that still have to call Done. */
  ghost predicate ThreadInv(s: Sys) {
    Keyed(s) && ThreadsOk(s) && Exclusive(s) && s.wg == |Counted(s.threads)|
  }

  ghost predicate Inv(s: Sys) {
    OrderInv(s) && ThreadInv(s)
  }

  /* Every step keeps it */

  /** A step that changes one goroutine and its record. */
  lemma OneThread(s: Sys, s': Sys, id: Id)
    requires ThreadInv(s) && At(s, id)
    requires s'.threads.Keys == s.threads.Keys
    requires s'.m.contexts == s.m.contexts && s'.m.tasks.Keys == s.m.tasks.Keys
    requires forall x :: x in s.threads && x != id ==> s'.threads[x] == s.threads[x] && Record(s', x) == Record(s, x)
    requires ThreadOk(s'.threads[id], s.m.contexts[id], Record(s', id))
    requires s'.threads[id].service == s.threads[id].service
    requires Unfinished(s', id) ==> Unfinished(s, id)
    requires s'.wg == |Counted(s'.threads)|
    ensures ThreadInv(s')
  {
    forall x | x in s'.threads ensures ThreadOk(s'.threads[x], s'.m.contexts[x], Record(s', x)) {
      if x != id {
        assert ThreadOk(s.threads[x], s.m.contexts[x], Record(s, x));
      }
    }
    FewerUnfinished(s, s');
  }

  /** Services stay exclusive while no deployment becomes unfinished. */
  lemma FewerUnfinished(s: Sys, s': Sys)
    requires Exclusive(s)
    requires forall x :: Unfinished(s', x) ==> Unfinished(s, x) && s'.threads[x].service == s.threads[x].service
    ensures Exclusive(s')
  {
  }

  lemma CountedMove(threads: map<Id, Thread>, id: Id, t: Thread)
    requires id in threads
    ensures |Counted(threads[id := t])| == |Counted(threads)|
        + (if Counts(t.pc) then 1 else 0) - (if Counts(threads[id].pc) then 1 else 0)
  {
    var a, b := Counted(threads), Counted(threads[id := t]);
    assert a - {id} == b - {id};
    assert id in a <==> Counts(threads[id].pc);
    assert id in b <==> Counts(t.pc);
    assert |a - {id}| == |a| - if id in a then 1 else 0;
    assert |b - {id}| == |b| - if id in b then 1 else 0;
  }

  /** A goroutine moves on without touching its record. */
  lemma MoveKeeps(s: Sys, id: Id, pc: Pc)
    requires ThreadInv(s) && At(s, id)
    requires EventsAt(pc) == s.threads[id].events && PcOk(pc, s.m.contexts[id])
    requires pc.Over? <==> s.threads[id].pc.Over?
    requires id in s.m.tasks ==> RecordOk(s.threads[id].(pc := pc), s.m.tasks[id])
    ensures var s' := Move(s, id, pc); ThreadInv(s'.(wg := |Counted(s'.threads)|))
  {
    var s' := Move(s, id, pc);
    assert ThreadOk(s.threads[id], s.m.contexts[id], Record(s, id));
    OneThread(s, s'.(wg := |Counted(s'.threads)|), id);
  }

  lemma SpawnKeeps(s: Sys, id: Id)
    requires ThreadInv(s) && Enabled(s, Spawn(id))
    ensures ThreadInv(Move(s, id, Ready).(wg := s.wg + 1))
  {
    assert ThreadOk(s.threads[id], s.m.contexts[id], Record(s, id));
    MoveKeeps(s, id, Ready);
    CountedMove(s.threads, id, s.threads[id].(pc := Ready));
  }

  lemma DoneKeeps(s: Sys, id: Id)
    requires ThreadInv(s) && Enabled(s, Done(id))
    ensures ThreadInv(Move(s, id, s.threads[id].pc.(counted := false)).(wg := s.wg - 1))
  {
    assert ThreadOk(s.threads[id], s.m.contexts[id], Record(s, id));
    var pc := s.threads[id].pc.(counted := false);
    MoveKeeps(s, id, pc);
    CountedMove(s.threads, id, s.threads[id].(pc := pc));
  }

  lemma ReturnKeeps(s: Sys, id: Id, result: RunResult)
    requires ThreadInv(s) && Enabled(s, Return(id, result))
    ensures ThreadInv(Move(s, id, Returned(s.threads[id].pc.deploying, result)))
  {
    assert ThreadOk(s.threads[id], s.m.contexts[id], Record(s, id));
    var pc := Returned(s.threads[id].pc.deploying, result);
    MoveKeeps(s, id, pc);
    CountedMove(s.threads, id, s.threads[id].(pc := pc));
  }

  lemma DecideKeeps(s: Sys, id: Id)
    requires ThreadInv(s) && At(s, id) && s.threads[id].pc.Returned?
    ensures ThreadInv(DoDecide(s, id))
  {
    assert ThreadOk(s.threads[id], s.m.contexts[id], Record(s, id));
    var pc := DoDecide(s, id).threads[id].pc;
    MoveKeeps(s, id, pc);
    CountedMove(s.threads, id, s.threads[id].(pc := pc));
  }

  /** Observing an event updates the record and nothing else of the manager. */
  lemma ObserveSummary(st: State, id: Id, status: Status, delivery: Delivery)
    requires id in st.tasks
    ensures Observe(st, id, status, delivery).order == st.order
    ensures Observe(st, id, status, delivery).contexts == st.contexts
    ensures exists m ::
        ObservedFrom(st.tasks[id], m, status) && Observe(st, id, status, delivery).tasks == st.tasks[id := m]
  {
    assert ObservedFrom(st.tasks[id], Observe(st, id, status, delivery).tasks[id], status);
  }

  predicate ObservedFrom(old': Managed, m: Managed, status: Status) {
    && m.task.service == old'.task.service && m.canCancel == old'.canCancel
    && m.task.slack.Keys == old'.task.slack.Keys + {status}
    && m.task.status == (if status == Compiling || status == Deploying then status else old'.task.status)
    && m.finalStatus == (if IsTerminal(status) then Some(status) else old'.finalStatus)
  }

  function Replace(s: Sys, id: Id, m: Managed, t: Thread): Sys {
    s.(m := s.m.(tasks := s.m.tasks[id := m]), threads := s.threads[id := t])
  }

  /** A goroutine moves on and its record with it. */
  lemma ReplaceKeeps(s: Sys, id: Id, m: Managed, t: Thread)
    requires ThreadInv(s) && At(s, id) && id in s.m.tasks
    requires ThreadOk(t, s.m.contexts[id], Some(m))
    requires t.service == s.threads[id].service && Counts(t.pc) == Counts(s.threads[id].pc)
    requires !t.pc.Over? ==> !s.threads[id].pc.Over?
    ensures ThreadInv(Replace(s, id, m, t))
  {
    CountedMove(s.threads, id, t);
    OneThread(s, Replace(s, id, m, t), id);
  }

  lemma NotifyKeeps(s: Sys, id: Id, status: Status, delivery: Delivery, pc: Pc)
    requires ThreadInv(s) && At(s, id) && !s.threads[id].pc.Over? && !s.threads[id].pc.Gap?
    requires s.threads[id].pc.Reported? <==> false
    requires EventsAt(pc) == s.threads[id].events + [status] && PcOk(pc, s.m.contexts[id])
    requires !pc.Over? && !pc.Gap?
    requires PhaseAt(pc) == if status == Compiling || status == Deploying then status else PhaseAt(s.threads[id].pc)
    requires if IsTerminal(status) then pc.Reported? && pc.verdict == status else !pc.Reported?
    ensures ThreadInv(Notify(s, id, status, delivery, pc))
  {
    var t := s.threads[id];
    assert ThreadOk(t, s.m.contexts[id], Record(s, id));
    ObserveSummary(s.m, id, status, delivery);
    var m :| ObservedFrom(s.m.tasks[id], m, status) && Observe(s.m, id, status, delivery).tasks == s.m.tasks[id := m];
    var t' := t.(pc := pc, events := t.events + [status]);
    KeysOneMore(t.events, status);
    assert RecordOk(t', m);
    ReplaceKeeps(s, id, m, t');
  }

  lemma KeysOneMore(events: seq<Status>, status: Status)
    ensures Keys(events + [status]) == Keys(events) + {status}
  {
  }

  predicate FinishedFrom(old': Managed, m: Managed, ctx: Context, failed: bool) {
    && m.task.service == old'.task.service && m.task.slack == old'.task.slack
    && !m.canCancel && m.finalStatus == old'.finalStatus
    && m.task.status == FinishStatus(old', ctx, failed)
  }

  lemma FinishSummary(st: State, id: Id, result: RunResult, now: Clock) returns (m: Managed)
    requires id in st.tasks
    ensures Finish(st, id, result, now) == st.(tasks := st.tasks[id := m])
    ensures FinishedFrom(st.tasks[id], m, ContextOf(st, id), result.error.Some?)
  {
    m := Finish(st, id, result, now).tasks[id];
  }

  lemma FinishIsReplace(s: Sys, id: Id, now: Clock) returns (m: Managed)
    requires At(s, id) && s.threads[id].pc.Reported? && id in s.m.tasks
    ensures var t := s.threads[id];
      && FinishedFrom(s.m.tasks[id], m, ContextOf(s.m, id), t.pc.result.error.Some?)
      && DoFinish(s, id, now)
        == Replace(s, id, m, Ended(t, m))
  {
    m := FinishSummary(s.m, id, s.threads[id].pc.result, now);
  }

  /** The two looks at the context fit together: canceled exactly if the context
      is, and otherwise what was reported. */
  lemma FinalOk(m: Managed, ctx: Context, deploying: bool, verdict: Status, failed: bool)
    requires m.finalStatus == Some(verdict) && VerdictOk(deploying, verdict, failed, ctx)
    ensures var f := FinishStatus(m, ctx, failed);
      (f == Canceled <==> ctx == CtxCanceled) && (f != Canceled ==> f == verdict)
  {
  }

  function Ended(t: Thread, m: Managed): Thread
    requires t.pc.Reported?
  {
    t.(pc := Over(t.pc.deploying, t.pc.verdict, m.task.status, true))
  }

  lemma EndedOk(t: Thread, before: Managed, m: Managed, ctx: Context)
    requires ThreadOk(t, ctx, Some(before)) && t.pc.Reported?
    requires FinishedFrom(before, m, ctx, t.pc.result.error.Some?)
    ensures ThreadOk(Ended(t, m), ctx, Some(m))
  {
    FinalOk(before, ctx, t.pc.deploying, t.pc.verdict, t.pc.result.error.Some?);
  }

  lemma FinishKeeps(s: Sys, id: Id, now: Clock)
    requires ThreadInv(s) && At(s, id) && (s.threads[id].pc.Reported? || s.threads[id].pc.Refused?)
    ensures ThreadInv(DoFinish(s, id, now))
  {
    var t := s.threads[id];
    assert ThreadOk(t, s.m.contexts[id], Record(s, id));
    var m := FinishIsReplace(s, id, now);
    EndedOk(t, s.m.tasks[id], m, s.m.contexts[id]);
    ReplaceKeeps(s, id, m, Ended(t, m));
  }

  predicate ContextMove(before: Context, after: Context, over: bool) {
    before == after || (before == Live && (after == Expired || !over))
  }

  /** Contexts change only from live, and to canceled only while running. */
  lemma ContextsKeep(s: Sys, contexts: map<Id, Context>)
    requires ThreadInv(s) && contexts.Keys == s.m.contexts.Keys
    requires forall id :: id in contexts ==> ContextMove(s.m.contexts[id], contexts[id], s.threads[id].pc.Over?)
    ensures ThreadInv(s.(m := s.m.(contexts := contexts)))
  {
    var s' := s.(m := s.m.(contexts := contexts));
    forall id | id in s'.threads ensures ThreadOk(s'.threads[id], s'.m.contexts[id], Record(s', id)) {
      assert ThreadOk(s.threads[id], s.m.contexts[id], Record(s, id));
    }
  }

  lemma RunningIsUnfinished(s: Sys, id: Id)
    requires ThreadInv(s) && id in s.m.tasks && !IsTerminal(s.m.tasks[id].task.status)
    ensures Unfinished(s, id) && s.m.tasks[id].canCancel
  {
    assert ThreadOk(s.threads[id], s.m.contexts[id], Record(s, id));
  }

  lemma CancelKeeps(s: Sys, id: Id)
    requires ThreadInv(s)
    ensures ThreadInv(s.(m := CancelTask(s.m, id)))
  {
    if CancelAnswer(s.m, id) == CancelCalled {
      RunningIsUnfinished(s, id);
      ContextsKeep(s, CancelContext(s.m.contexts, id));
    }
  }

  lemma CancelAllKeeps(s: Sys)
    requires ThreadInv(s)
    ensures ThreadInv(s.(m := CancelAll(s.m)))
  {
    forall id | Cancelable(s.m, id) ensures Unfinished(s, id) {
      RunningIsUnfinished(s, id);
    }
    ContextsKeep(s, CancelAll(s.m).contexts);
  }

  lemma ExpireKeeps(s: Sys, id: Id)
    requires ThreadInv(s) && id in s.m.contexts
    ensures ThreadInv(DoExpire(s, id))
  {
    if s.m.contexts[id] == Live {
      ContextsKeep(s, s.m.contexts[id := Expired]);
    }
  }

  /** The state just after an insertion, before pruning. */
  function Inserted(s: Sys, id: Id, input: Input): Sys {
    s.(m := State(s.m.tasks[id := NewTask(input)], s.m.order + [id], s.m.contexts[id := Live]),
       threads := s.threads[id := NewThread(input)], hist := s.hist + [id])
  }

  lemma AddKeeps(s: Sys, id: Id, m: Managed, t: Thread, order: seq<Id>, hist: seq<Id>)
    requires ThreadInv(s) && id !in s.threads && t.pc.Gap? && ThreadOk(t, Live, Some(m))
    requires forall x :: Unfinished(s, x) ==> s.threads[x].service != t.service
    ensures ThreadInv(Sys(State(s.m.tasks[id := m], order, s.m.contexts[id := Live]), s.threads[id := t], s.wg, hist))
  {
    var s1 := Sys(State(s.m.tasks[id := m], order, s.m.contexts[id := Live]), s.threads[id := t], s.wg, hist);
    forall x | x in s1.threads ensures ThreadOk(s1.threads[x], s1.m.contexts[x], Record(s1, x)) {
      if x != id {
        assert ThreadOk(s.threads[x], s.m.contexts[x], Record(s, x));
      }
    }
    assert Counted(s1.threads) == Counted(s.threads);
    OneMoreUnfinished(s, s1, id);
  }

  lemma OneMoreUnfinished(s: Sys, s': Sys, id: Id)
    requires Exclusive(s) && At(s', id)
    requires forall x :: Unfinished(s', x) && x != id ==> Unfinished(s, x) && s'.threads[x] == s.threads[x]
    requires forall x :: Unfinished(s, x) ==> s.threads[x].service != s'.threads[id].service
    ensures Exclusive(s')
  {
  }

  lemma FreeService(s: Sys, service: string)
    requires ThreadInv(s) && !Busy(s.m, service)
    ensures forall x :: Unfinished(s, x) ==> s.threads[x].service != service
  {
    forall x | Unfinished(s, x) ensures s.threads[x].service != service {
      assert ThreadOk(s.threads[x], s.m.contexts[x], Record(s, x));
    }
  }

  lemma InsertKeepsThreads(s: Sys, id: Id, input: Input)
    requires ThreadInv(s) && id !in s.threads && ValidDeployment(input) && !Busy(s.m, input.service)
    ensures ThreadInv(Inserted(s, id, input))
  {
    FreeService(s, input.service);
    NoProblem(input);
    AddKeeps(s, id, NewTask(input), NewThread(input), s.m.order + [id], s.hist + [id]);
  }

  lemma ShapeOneMore(hist: seq<Id>, order: seq<Id>, tasks: set<Id>, contexts: set<Id>, id: Id)
    requires Shape(hist, order, tasks, contexts) && id !in hist
    ensures Shape(hist + [id], order + [id], tasks + {id}, contexts + {id})
  {
    var k := |hist| - |order|;
    assert id !in order;
    ElemsOneMore(order, id);
    ElemsOneMore(hist, id);
    assert hist[k..] + [id] == (hist + [id])[k..];
  }

  lemma OrderOneMore(s: Sys, id: Id, m: Managed, threads: map<Id, Thread>)
    requires OrderInv(s) && id !in s.hist
    ensures OrderInv(Sys(State(s.m.tasks[id := m], s.m.order + [id], s.m.contexts[id := Live]),
                         threads, s.wg, s.hist + [id]))
  {
    ShapeOneMore(s.hist, s.m.order, s.m.tasks.Keys, s.m.contexts.Keys, id);
    assert s.m.tasks[id := m].Keys == s.m.tasks.Keys + {id};
    assert s.m.contexts[id := Live].Keys == s.m.contexts.Keys + {id};
  }

  lemma InsertKeepsOrder(s: Sys, id: Id, input: Input)
    requires OrderInv(s) && id !in s.hist
    ensures OrderInv(Inserted(s, id, input))
  {
    OrderOneMore(s, id, NewTask(input), s.threads[id := NewThread(input)]);
  }

  lemma ElemsOneMore(h: seq<Id>, id: Id)
    requires NoDup(h) && id !in h
    ensures NoDup(h + [id]) && Elems(h + [id]) == Elems(h) + {id}
  {
  }

  lemma OrderIsIndexed(s: Sys)
    requires OrderInv(s) && Keyed(s)
    ensures Indexed(s.m)
  {
  }

  lemma PrunedRecord(st: State, x: Id)
    requires Indexed(st)
    ensures x in Prune(st).tasks ==> x in st.tasks && Prune(st).tasks[x] == st.tasks[x]
    ensures x in st.tasks && x !in Prune(st).tasks ==> IsTerminal(st.tasks[x].task.status)
  {
    PruneRemovesPrefix(st);
    PruneStopsAtRunning(st);
    if x in st.order[..PruneCount(st)] {
      var i :| 0 <= i < PruneCount(st) && st.order[i] == x;
      assert Finished(st, st.order[i]);
    }
  }

  lemma PruneFrame(st: State)
    requires Indexed(st)
    ensures Prune(st).contexts == st.contexts && Prune(st).tasks.Keys <= st.tasks.Keys
  {
    PruneRemovesPrefix(st);
  }

  lemma PruneKeepsThread(s: Sys, x: Id, r: Option<Managed>)
    requires ThreadInv(s) && At(s, x)
    requires r == Record(s, x) || (r.None? && x in s.m.tasks && IsTerminal(s.m.tasks[x].task.status))
    ensures ThreadOk(s.threads[x], s.m.contexts[x], r)
  {
    assert ThreadOk(s.threads[x], s.m.contexts[x], Record(s, x));
  }

  lemma PruneKeepsThreads(s: Sys)
    requires ThreadInv(s) && Indexed(s.m)
    ensures ThreadInv(s.(m := Prune(s.m)))
  {
    PruneFrame(s.m);
    var s' := s.(m := Prune(s.m));
    forall x | x in s'.threads ensures ThreadOk(s'.threads[x], s'.m.contexts[x], Record(s', x)) {
      PrunedRecord(s.m, x);
      PruneKeepsThread(s, x, Record(s', x));
    }
  }

  lemma PruneKeepsOrder(s: Sys)
    requires OrderInv(s) && Indexed(s.m)
    ensures OrderInv(s.(m := Prune(s.m)))
  {
    PruneRemovesPrefix(s.m);
    PruneKeepsIndexed(s.m);
    ShapeOfSuffix(s.hist, s.m.order, s.m.tasks.Keys, s.m.contexts.Keys, PruneCount(s.m), Prune(s.m).tasks.Keys);
  }

  lemma ShapeOfSuffix(hist: seq<Id>, order: seq<Id>, tasks: set<Id>, contexts: set<Id>, j: nat, left: set<Id>)
    requires Shape(hist, order, tasks, contexts) && j <= |order| && (j > 0 ==> |order| - j >= HISTORY_LIMIT)
    requires NoDup(order[j..]) && left == Elems(order[j..])
    ensures Shape(hist, order[j..], left, contexts)
  {
    var k := |hist| - |order|;
    assert hist[k..][j..] == hist[k + j..];
    assert order[0..] == order;
  }

  lemma StartKeeps(s: Sys, id: Id, input: Input)
    requires Inv(s) && Enabled(s, Start(id, input))
    ensures Inv(DoStart(s, id, input))
  {
    if ValidDeployment(input) && !Busy(s.m, input.service) {
      InsertKeepsThreads(s, id, input);
      InsertKeepsOrder(s, id, input);
      OrderIsIndexed(Inserted(s, id, input));
      PruneKeepsThreads(Inserted(s, id, input));
      PruneKeepsOrder(Inserted(s, id, input));
    }
  }

  /** Steps other than Start leave the history, the order and the keys alone. */
  lemma FrameOfStep(s: Sys, step: Step)
    requires ThreadInv(s) && Enabled(s, step) && !step.Start?
    ensures Apply(s, step).hist == s.hist && Apply(s, step).m.order == s.m.order
    ensures Apply(s, step).m.tasks.Keys == s.m.tasks.Keys
    ensures Apply(s, step).m.contexts.Keys == s.m.contexts.Keys
  {
    OrderOfStep(s, step);
    KeysOfStep(s, step);
  }

  lemma OrderOfStep(s: Sys, step: Step)
    requires Enabled(s, step) && !step.Start?
    ensures Apply(s, step).hist == s.hist && Apply(s, step).m.order == s.m.order
  {
  }

  lemma KeysOfStep(s: Sys, step: Step)
    requires Enabled(s, step) && !step.Start?
    ensures Apply(s, step).m.tasks.Keys == s.m.tasks.Keys
    ensures Apply(s, step).m.contexts.Keys == s.m.contexts.Keys
  {
  }

  lemma OtherStepKeepsThreads(s: Sys, step: Step)
    requires ThreadInv(s) && Enabled(s, step) && !step.Start?
    ensures ThreadInv(Apply(s, step))
  {
    match step
    case CancelCall(id) => CancelKeeps(s, id);
    case Expire(id) => ExpireKeeps(s, id);
    case CloseCancel => CancelAllKeeps(s);
    case CloseDrained =>
    case FinishRun(id, now) => FinishKeeps(s, id, now);
    case _ => RunningStepKeepsThreads(s, step);
  }

  /** The steps of a goroutine up to its last critical section, and its Done. */
  lemma RunningStepKeepsThreads(s: Sys, step: Step)
    requires ThreadInv(s) && Enabled(s, step) && !step.Start? && !step.FinishRun?
    requires !(step.CancelCall? || step.Expire? || step.CloseCancel? || step.CloseDrained?)
    ensures ThreadInv(Apply(s, step))
  {
    match step
    case Spawn(id) => SpawnKeeps(s, id);
    case Refuse(id) => RefuseNeverHappens(s, id);
    case Return(id, result) => ReturnKeeps(s, id, result);
    case Decide(id) => DecideKeeps(s, id);
    case Done(id) => DoneKeeps(s, id);
    case ObserveCompiling(id, delivery) => CompilingKeeps(s, id, delivery);
    case ObserveDeploying(id, delivery) => DeployingKeeps(s, id, delivery);
    case Report(id, delivery) => ReportKeeps(s, id, delivery);
  }

  /** deploy never rejects the input: Start has validated it. */
  lemma RefuseNeverHappens(s: Sys, id: Id)
    requires ThreadInv(s)
    ensures !Enabled(s, Refuse(id))
  {
    if At(s, id) {
      assert ThreadOk(s.threads[id], s.m.contexts[id], Record(s, id));
    }
  }

  lemma CompilingKeeps(s: Sys, id: Id, delivery: Delivery)
    requires ThreadInv(s) && Enabled(s, ObserveCompiling(id, delivery))
    ensures ThreadInv(Notify(s, id, Compiling, delivery, Running(false)))
  {
    assert ThreadOk(s.threads[id], s.m.contexts[id], Record(s, id));
    NotifyKeeps(s, id, Compiling, delivery, Running(false));
  }

  lemma DeployingKeeps(s: Sys, id: Id, delivery: Delivery)
    requires ThreadInv(s) && Enabled(s, ObserveDeploying(id, delivery))
    ensures ThreadInv(Notify(s, id, Deploying, delivery, Running(true)))
  {
    assert ThreadOk(s.threads[id], s.m.contexts[id], Record(s, id));
    NotifyKeeps(s, id, Deploying, delivery, Running(true));
  }

  lemma ReportKeeps(s: Sys, id: Id, delivery: Delivery)
    requires ThreadInv(s) && At(s, id) && s.threads[id].pc.Decided?
    ensures ThreadInv(DoReport(s, id, delivery))
  {
    assert ThreadOk(s.threads[id], s.m.contexts[id], Record(s, id));
    var pc := s.threads[id].pc;
    NotifyKeeps(s, id, pc.verdict, delivery, Reported(pc.deploying, pc.verdict, pc.result));
  }

  /** The inductive invariant: every step of every interleaving keeps it. */
  lemma StepKeepsInv(s: Sys, step: Step)
    requires Inv(s) && Enabled(s, step)
    ensures Inv(Apply(s, step))
  {
    if step.Start? {
      StartKeeps(s, step.id, step.input);
    } else {
      FrameOfStep(s, step);
      OtherStepKeepsThreads(s, step);
    }
  }
}
