/** What restart_and_verify in scripts/deploy-server.sh does, call by call, given
    the answers of supervisorctl. */
module Supervision {
  import opened Text

  const MAX_ATTEMPTS: nat := 5
  const MAX_POLLS: nat := 5

  datatype Reply = Reply(ok: bool, lines: seq<string>)

  /** The answers of supervisorctl: to the n-th `restart` call, and to the n-th
      `status` call about a process. */
  datatype Supervisor = Supervisor(restart: nat -> Reply, status: (string, nat) -> string)

  function RestartReply(env: Supervisor, n: nat): Reply {
    env.restart(n)
  }

  function StatusReply(env: Supervisor, p: string, n: nat): string {
    env.status(p, n)
  }

  predicate IsRunning(status: string) {
    Contains(status, " RUNNING ")
  }

  /** The status that a loop ends with, and the number of the next status call. */
  /** What the pattern *" RUNNING "* means. */
  lemma RunningMeans(status: string)
    ensures IsRunning(status) <==> exists before, after :: status == before + " RUNNING " + after
  {
    if IsRunning(status) {
      var i: nat :| i <= |status| && Occurs(status, " RUNNING ", i);
      assert status == status[..i] + " RUNNING " + status[i + 9..];
    }
    forall before, after | status == before + " RUNNING " + after ensures IsRunning(status) {
      ContainsInMiddle(before, " RUNNING ", after);
    }
  }

  datatype Polled = Polled(status: string, next: nat)

  /** The health loop with `left` rounds to go: it stops at the first RUNNING. */
  function Health(env: Supervisor, p: string, n: nat, left: nat): Polled
    requires left > 0
    decreases left, p
  {
    if IsRunning(StatusReply(env, p, n)) || left == 1 then Polled(StatusReply(env, p, n), n + 1)
    else Health(env, p, n + 1, left - 1)
  }

  /** One attempt: restart call number `call`, then the health loop if it worked,
      and one status call if it did not. */
  function Try(env: Supervisor, p: string, call: nat, n: nat): Polled
  {
    if RestartReply(env, call).ok then Health(env, p, n, MAX_POLLS) else Polled(StatusReply(env, p, n), n + 1)
  }

  /** The attempt ends the loop: the call succeeded and the process is RUNNING. */
  predicate Works(env: Supervisor, p: string, call: nat, n: nat) {
    RestartReply(env, call).ok && IsRunning(Try(env, p, call, n).status)
  }

  /** What happens to one process: the number of restart calls, its last status,
      and the number of the next status call. */
  datatype Visit = Visit(calls: nat, status: string, next: nat)

  /** The restart loop with `left` attempts to go. */
  function VisitOf(env: Supervisor, p: string, call: nat, n: nat, left: nat): Visit
    requires left > 0
    decreases left, p
  {
    var t := Try(env, p, call, n);
    if Works(env, p, call, n) || left == 1 then Visit(1, t.status, t.next)
    else
      var v := VisitOf(env, p, call + 1, t.next, left - 1);
      Visit(v.calls + 1, v.status, v.next)
  }

  /** The health loop asks at least once and at most `left` times, and ends with
      the first RUNNING answer if there is one. */
  lemma {:induction false} HealthMeaning(env: Supervisor, p: string, n: nat, left: nat)
    requires left > 0
    ensures n < Health(env, p, n, left).next <= n + left
    ensures Health(env, p, n, left).status == StatusReply(env, p, Health(env, p, n, left).next - 1)
    ensures forall k :: n <= k < Health(env, p, n, left).next - 1 ==> !IsRunning(StatusReply(env, p, k))
    ensures !IsRunning(Health(env, p, n, left).status) ==> Health(env, p, n, left).next == n + left
    decreases left
  {
    if !IsRunning(StatusReply(env, p, n)) && left > 1 {
      HealthMeaning(env, p, n + 1, left - 1);
    }
  }

  /** An attempt: one status call when the restart call failed; otherwise the first of
      five status calls that says RUNNING, or the fifth. */
  lemma TryMeans(env: Supervisor, p: string, call: nat, n: nat)
    ensures !RestartReply(env, call).ok ==> Try(env, p, call, n) == Polled(StatusReply(env, p, n), n + 1)
    ensures RestartReply(env, call).ok ==>
        n < Try(env, p, call, n).next <= n + 5
        && Try(env, p, call, n).status == StatusReply(env, p, Try(env, p, call, n).next - 1)
        && (forall k :: n <= k < Try(env, p, call, n).next - 1 ==> !IsRunning(StatusReply(env, p, k)))
        && (!IsRunning(Try(env, p, call, n).status) ==> Try(env, p, call, n).next == n + 5)
    ensures Works(env, p, call, n) <==>
        RestartReply(env, call).ok && exists k: nat :: n <= k < n + 5 && IsRunning(StatusReply(env, p, k))
  {
    HealthMeaning(env, p, n, 5);
  }

  lemma {:induction false} VisitBounds(env: Supervisor, p: string, call: nat, n: nat, left: nat)
    requires left > 0
    ensures 1 <= VisitOf(env, p, call, n, left).calls <= left
    ensures n < VisitOf(env, p, call, n, left).next
    ensures VisitOf(env, p, call, n, left).status == StatusReply(env, p, VisitOf(env, p, call, n, left).next - 1)
    decreases left
  {
    HealthMeaning(env, p, n, MAX_POLLS);
    if !Works(env, p, call, n) && left > 1 {
      VisitBounds(env, p, call + 1, Try(env, p, call, n).next, left - 1);
    }
  }

  /** The number of the first status call of attempt `k`. */
  function StartOf(env: Supervisor, p: string, call: nat, n: nat, k: nat): nat
    decreases k
  {
    if k == 0 then n else Try(env, p, call + k - 1, StartOf(env, p, call, n, k - 1)).next
  }

  lemma {:induction false} StartShift(env: Supervisor, p: string, call: nat, n: nat, k: nat)
    ensures StartOf(env, p, call + 1, Try(env, p, call, n).next, k) == StartOf(env, p, call, n, k + 1)
    decreases k
  {
    if k > 0 {
      StartShift(env, p, call, n, k - 1);
      assert call + 1 + k - 1 == call + (k + 1) - 1;
    }
  }

  /** Every attempt but the last fails. The last one works, or is the last that is
      allowed, and its status and poll count are those of the visit. */
  lemma {:induction false} VisitMeaning(env: Supervisor, p: string, call: nat, n: nat, left: nat, k: nat)
    requires left > 0 && k < VisitOf(env, p, call, n, left).calls
    ensures k + 1 < VisitOf(env, p, call, n, left).calls ==> !Works(env, p, call + k, StartOf(env, p, call, n, k))
    ensures k + 1 == VisitOf(env, p, call, n, left).calls ==>
        (k + 1 < left ==> Works(env, p, call + k, StartOf(env, p, call, n, k)))
    ensures k + 1 == VisitOf(env, p, call, n, left).calls ==>
        Try(env, p, call + k, StartOf(env, p, call, n, k))
        == Polled(VisitOf(env, p, call, n, left).status, VisitOf(env, p, call, n, left).next)
    decreases left
  {
    if k > 0 {
      VisitMeaning(env, p, call + 1, Try(env, p, call, n).next, left - 1, k - 1);
      StartShift(env, p, call, n, k - 1);
      assert call + 1 + (k - 1) == call + k;
    }
  }

  /** A process passes without a successful restart exactly when all its calls fail
      and the status after the last of them is RUNNING. */
  lemma {:induction false} PassingWithoutRestart(env: Supervisor, p: string, call: nat, n: nat, left: nat)
    requires left > 0
    ensures IsRunning(VisitOf(env, p, call, n, left).status) && AllFail(env, call, VisitOf(env, p, call, n, left).calls)
       <==> AllFail(env, call, left) && IsRunning(StatusReply(env, p, n + left - 1))
    decreases left
  {
    var v := VisitOf(env, p, call, n, left);
    AllFailSplit(env, call, left);
    AllFailSplit(env, call, v.calls);
    if !RestartReply(env, call).ok && left > 1 {
      PassingWithoutRestart(env, p, call + 1, n + 1, left - 1);
    }
  }

  predicate AllFail(env: Supervisor, call: nat, count: nat) {
    forall k :: call <= k < call + count ==> !RestartReply(env, k).ok
  }

  lemma AllFailSplit(env: Supervisor, call: nat, count: nat)
    requires count > 0
    ensures AllFail(env, call, count) <==> !RestartReply(env, call).ok && AllFail(env, call + 1, count - 1)
  {
  }

  /** All processes in order, up to the first that is not left RUNNING. */
  function VisitAll(env: Supervisor, ps: seq<string>, call: nat, n: nat): (vs: seq<Visit>)
    ensures |vs| <= |ps|
  {
    if ps == [] then []
    else
      var v := VisitOf(env, ps[0], call, n, MAX_ATTEMPTS);
      [v] + (if IsRunning(v.status) then VisitAll(env, ps[1..], call + v.calls, v.next) else [])
  }

  /** Every process was reached and left RUNNING. */
  predicate Passes(env: Supervisor, ps: seq<string>) {
    && |VisitAll(env, ps, 0, 0)| == |ps|
    && forall i :: 0 <= i < |ps| ==> IsRunning(VisitAll(env, ps, 0, 0)[i].status)
  }

  function CallsBefore(vs: seq<Visit>, i: nat): nat
    requires i <= |vs|
  {
    if i == 0 then 0 else CallsBefore(vs, i - 1) + vs[i - 1].calls
  }

  lemma {:induction false} CallsBeforeShift(v: Visit, vs: seq<Visit>, i: nat)
    requires i <= |vs|
    ensures CallsBefore([v] + vs, i + 1) == v.calls + CallsBefore(vs, i)
  {
    if i > 0 {
      CallsBeforeShift(v, vs, i - 1);
    }
  }

  /** The number of the first status call of visit `i`. */
  function PollsBefore(vs: seq<Visit>, n: nat, i: nat): nat
    requires i <= |vs|
  {
    if i == 0 then n else vs[i - 1].next
  }

  lemma VisitAllStep(env: Supervisor, ps: seq<string>, call: nat, n: nat, v: Visit, rest: seq<Visit>)
    requires ps != [] && v == VisitOf(env, ps[0], call, n, MAX_ATTEMPTS)
    requires rest == if IsRunning(v.status) then VisitAll(env, ps[1..], call + v.calls, v.next) else []
    ensures VisitAll(env, ps, call, n) == [v] + rest
  {
  }

  /** The first visit, and those behind it. */
  lemma VisitAllHead(env: Supervisor, ps: seq<string>, call: nat, n: nat, vs: seq<Visit>)
    requires vs == VisitAll(env, ps, call, n) && vs != []
    ensures ps != [] && vs[0] == VisitOf(env, ps[0], call, n, MAX_ATTEMPTS)
    ensures vs[1..] == if IsRunning(vs[0].status) then VisitAll(env, ps[1..], call + vs[0].calls, vs[0].next) else []
  {
  }

  /** Each visit starts where the one before ended. */
  lemma {:induction false} VisitsAt(env: Supervisor, ps: seq<string>, call: nat, n: nat, vs: seq<Visit>,
                                    i: nat, c: nat, m: nat)
    requires vs == VisitAll(env, ps, call, n) && i < |vs|
    requires c == call + CallsBefore(vs, i) && m == PollsBefore(vs, n, i)
    ensures vs[i] == VisitOf(env, ps[i], c, m, 5)
    decreases i
  {
    VisitAllHead(env, ps, call, n, vs);
    if i > 0 {
      var v, rest := vs[0], vs[1..];
      assert vs == [v] + rest;
      CallsBeforeShift(v, rest, i - 1);
      VisitsAt(env, ps[1..], call + v.calls, v.next, rest, i - 1, c, m);
    }
  }

  /** Only the last visited process may be left other than RUNNING, and this is the
      one reason for stopping early. */
  lemma {:induction false} VisitsEnd(env: Supervisor, ps: seq<string>, call: nat, n: nat, vs: seq<Visit>, i: nat)
    requires vs == VisitAll(env, ps, call, n) && i < |vs|
    ensures i + 1 < |vs| ==> IsRunning(vs[i].status)
    ensures i + 1 == |vs| < |ps| ==> !IsRunning(vs[i].status)
    decreases i
  {
    VisitAllHead(env, ps, call, n, vs);
    if i > 0 {
      VisitsEnd(env, ps[1..], call + vs[0].calls, vs[0].next, vs[1..], i - 1);
    } else if |vs| == 1 && IsRunning(vs[0].status) {
      assert vs[1..] == [];
      NoVisits(env, ps[1..], call + vs[0].calls, vs[0].next);
    }
  }

  lemma NoVisits(env: Supervisor, ps: seq<string>, call: nat, n: nat)
    ensures VisitAll(env, ps, call, n) == [] <==> ps == []
  {
  }

  /** The run passes exactly if all were reached and the last one was left RUNNING. */
  lemma PassesExactly(env: Supervisor, ps: seq<string>, vs: seq<Visit>)
    requires vs == VisitAll(env, ps, 0, 0)
    ensures Passes(env, ps) <==> |vs| == |ps| && (ps != [] ==> IsRunning(vs[|vs| - 1].status))
  {
    if |vs| == |ps| {
      forall i | 0 <= i < |vs| - 1 ensures IsRunning(vs[i].status) {
        VisitsEnd(env, ps, 0, 0, vs, i);
      }
    }
  }

  lemma VisitSpeaks(env: Supervisor, ps: seq<string>, call: nat, n: nat, vs: seq<Visit>, i: nat)
    requires vs == VisitAll(env, ps, call, n) && i < |vs|
    ensures vs[i].calls > 0 && vs[i].next > 0 && vs[i].status == StatusReply(env, ps[i], vs[i].next - 1)
  {
    var c, m := call + CallsBefore(vs, i), PollsBefore(vs, n, i);
    VisitsAt(env, ps, call, n, vs, i, c, m);
    VisitBounds(env, ps[i], c, m, MAX_ATTEMPTS);
  }

  lemma VisitNext(env: Supervisor, ps: seq<string>, k: nat, call: nat, n: nat, before: seq<Visit>, v: Visit)
    requires k < |ps| && v == VisitOf(env, ps[k], call, n, MAX_ATTEMPTS)
    ensures IsRunning(v.status) ==>
        before + VisitAll(env, ps[k..], call, n) == before + [v] + VisitAll(env, ps[k + 1..], call + v.calls, v.next)
    ensures !IsRunning(v.status) ==> before + VisitAll(env, ps[k..], call, n) == before + [v]
    ensures v.next > 0 && v.status == StatusReply(env, ps[k], v.next - 1)
  {
    VisitBounds(env, ps[k], call, n, MAX_ATTEMPTS);
    var rest := if IsRunning(v.status) then VisitAll(env, ps[k + 1..], call + v.calls, v.next) else [];
    assert ps[k..][1..] == ps[k + 1..];
    VisitAllStep(env, ps[k..], call, n, v, rest);
    assert before + ([v] + rest) == before + [v] + rest;
  }

  const UPTIME := "pid 1, uptime 0:00:01"

  /** A run in which no restart call succeeds and every process passes. */
  lemma RunWithoutRestart(ps: seq<string>) returns (env: Supervisor)
    ensures forall n: nat :: !RestartReply(env, n).ok
    ensures Passes(env, ps)
    ensures forall i :: 0 <= i < |ps| ==> VisitAll(env, ps, 0, 0)[i].calls == 5
  {
    env := Supervisor(n => Reply(false, []), (p, n) => p + " RUNNING " + UPTIME);
    forall p: string, n: nat ensures IsRunning(StatusReply(env, p, n)) {
      ContainsInMiddle(p, " RUNNING ", UPTIME);
    }
    AlwaysPasses(env, ps);
  }

  lemma AlwaysPasses(env: Supervisor, ps: seq<string>)
    requires forall k: nat :: !RestartReply(env, k).ok
    requires forall p: string, k: nat :: IsRunning(StatusReply(env, p, k))
    ensures Passes(env, ps)
    ensures forall i :: 0 <= i < |ps| ==> VisitAll(env, ps, 0, 0)[i].calls == MAX_ATTEMPTS
  {
    AlwaysRunning(env, ps, 0, 0);
  }

  lemma {:induction false} AlwaysRunning(env: Supervisor, ps: seq<string>, call: nat, n: nat)
    requires forall k: nat :: !RestartReply(env, k).ok
    requires forall p: string, k: nat :: IsRunning(StatusReply(env, p, k))
    ensures |VisitAll(env, ps, call, n)| == |ps|
    ensures forall v :: v in VisitAll(env, ps, call, n) ==> IsRunning(v.status) && v.calls == MAX_ATTEMPTS
    decreases |ps|
  {
    if ps != [] {
      var v := VisitOf(env, ps[0], call, n, MAX_ATTEMPTS);
      PassingWithoutRestart(env, ps[0], call, n, MAX_ATTEMPTS);
      NoEarlyEnd(env, ps[0], call, n, MAX_ATTEMPTS);
      AlwaysRunning(env, ps[1..], call + v.calls, v.next);
    }
  }

  lemma {:induction false} NoEarlyEnd(env: Supervisor, p: string, call: nat, n: nat, left: nat)
    requires left > 0 && AllFail(env, call, left)
    ensures VisitOf(env, p, call, n, left).calls == left
    decreases left
  {
    if left > 1 {
      NoEarlyEnd(env, p, call + 1, n + 1, left - 1);
    }
  }
}
