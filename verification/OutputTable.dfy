/** What `parseDeploymentOutput` makes of any output, whatever printed it: each row
    against the matches that it was made from. */
module OutputTable {
  import opened Text
  import opened RestartLog

  /** The attempt of the last restart line of a process, or 0 without one. */
  ghost predicate LastAttempt(ms: seq<Restart>, p: string, n: nat) {
    || (n == 0 && forall k :: 0 <= k < |ms| ==> ms[k].process != p)
    || (exists i :: 0 <= i < |ms| && ms[i] == Restart(p, n) && forall k :: i < k < |ms| ==> ms[k].process != p)
  }

  /** The number in the last RUNNING line of a process, or 0 without one. */
  ghost predicate LastPid(ms: seq<Running>, p: string, running: bool, n: nat) {
    || (!running && n == 0 && forall k :: 0 <= k < |ms| ==> ms[k].process != p)
    || (running
        && exists i :: 0 <= i < |ms| && ms[i] == Running(p, n) && forall k :: i < k < |ms| ==> ms[k].process != p)
  }

  /** The processes that are mentioned, restart lines first. */
  function Mentions(rs: seq<Restart>, us: seq<Running>): seq<string> {
    seq(|rs|, i requires 0 <= i < |rs| => rs[i].process) + seq(|us|, i requires 0 <= i < |us| => us[i].process)
  }

  /** Each process once, in the order of the first mentions. */
  ghost predicate InFirstMention(order: seq<string>, mentions: seq<string>) {
    && Distinct(order) && (forall p :: p in order <==> p in mentions)
    && forall i, j :: 0 <= i < j < |order| ==> MentionedFirst(mentions, order[i], order[j])
  }

  ghost predicate MentionedFirst(mentions: seq<string>, p: string, q: string) {
    exists k :: 0 <= k < |mentions| && mentions[k] == p && forall l :: 0 <= l <= k ==> mentions[l] != q
  }

  ghost predicate Means(t: Table, rs: seq<Restart>, us: seq<Running>) {
    && InFirstMention(t.order, Mentions(rs, us)) && Consistent(t)
    && forall p :: RowMeans(Entry(t, p), rs, us, p)
  }

  ghost predicate RowMeans(row: ProcessResult, rs: seq<Restart>, us: seq<Running>, p: string) {
    row.process == p && LastAttempt(rs, p, row.attempts) && LastPid(us, p, row.running, row.pid)
  }

  lemma MentionedFirstStill(mentions: seq<string>, p: string, q: string, more: string)
    requires MentionedFirst(mentions, p, q) || (p in mentions && q !in mentions)
    ensures MentionedFirst(mentions + [more], p, q)
  {
    var k :| 0 <= k < |mentions| && mentions[k] == p && forall l :: 0 <= l <= k ==> mentions[l] != q;
    assert (mentions + [more])[k] == p && forall l :: 0 <= l <= k ==> (mentions + [more])[l] == mentions[l];
  }

  lemma OneMoreMention(order: seq<string>, mentions: seq<string>, p: string)
    requires InFirstMention(order, mentions)
    ensures InFirstMention(if p in order then order else order + [p], mentions + [p])
  {
    var longer := if p in order then order else order + [p];
    forall i, j | 0 <= i < j < |longer| ensures MentionedFirst(mentions + [p], longer[i], longer[j]) {
      assert longer[i] == order[i] && order[i] in order;
      assert j < |order| ==> MentionedFirst(mentions, order[i], order[j]);
      MentionedFirstStill(mentions, longer[i], longer[j], p);
    }
  }

  lemma LastAttemptOneMore(ms: seq<Restart>, m: Restart, p: string, n: nat)
    requires LastAttempt(ms, p, n)
    ensures LastAttempt(ms + [m], p, if m.process == p then m.attempt else n)
  {
    var longer := ms + [m];
    if m.process == p {
      assert longer[|ms|] == Restart(p, m.attempt);
    } else if exists k :: 0 <= k < |ms| && ms[k].process == p {
      var i :| 0 <= i < |ms| && ms[i] == Restart(p, n) && forall k :: i < k < |ms| ==> ms[k].process != p;
      assert longer[i] == Restart(p, n);
    }
  }

  lemma LastPidOneMore(ms: seq<Running>, m: Running, p: string, running: bool, n: nat)
    requires LastPid(ms, p, running, n)
    ensures LastPid(ms + [m], p, running || m.process == p, if m.process == p then m.pid else n)
  {
    var longer := ms + [m];
    if m.process == p {
      assert longer[|ms|] == Running(p, m.pid);
    } else if running {
      var i :| 0 <= i < |ms| && ms[i] == Running(p, n) && forall k :: i < k < |ms| ==> ms[k].process != p;
      assert longer[i] == Running(p, n);
    }
  }

  lemma EntryOfPut(t: Table, r: ProcessResult, p: string)
    ensures Entry(Put(t, r), p) == if p == r.process then r else Entry(t, p)
    ensures Consistent(t) ==> Consistent(Put(t, r))
    ensures Consistent(t) ==> Put(t, r).order == if r.process in t.order then t.order else t.order + [r.process]
  {
  }

  lemma RestartRow(t: Table, rs: seq<Restart>, m: Restart, p: string)
    requires RowMeans(Entry(t, p), rs, [], p)
    ensures RowMeans(Entry(PutRestart(t, m), p), rs + [m], [], p)
  {
    EntryOfPut(t, Entry(t, m.process).(process := m.process, attempts := m.attempt), p);
    LastAttemptOneMore(rs, m, p, Entry(t, p).attempts);
  }

  lemma RunningRow(t: Table, rs: seq<Restart>, us: seq<Running>, m: Running, p: string)
    requires RowMeans(Entry(t, p), rs, us, p)
    ensures RowMeans(Entry(PutRunning(t, m), p), rs, us + [m], p)
  {
    EntryOfPut(t, Entry(t, m.process).(process := m.process, running := true, pid := m.pid), p);
    LastPidOneMore(us, m, p, Entry(t, p).running, Entry(t, p).pid);
  }

  lemma PutInOrder(t: Table, mentions: seq<string>, r: ProcessResult)
    requires InFirstMention(t.order, mentions) && Consistent(t)
    ensures InFirstMention(Put(t, r).order, mentions + [r.process]) && Consistent(Put(t, r))
  {
    EntryOfPut(t, r, r.process);
    OneMoreMention(t.order, mentions, r.process);
  }

  lemma PutRestartMeans(t: Table, rs: seq<Restart>, m: Restart)
    requires Means(t, rs, [])
    ensures Means(PutRestart(t, m), rs + [m], [])
  {
    assert Mentions(rs + [m], []) == Mentions(rs, []) + [m.process];
    PutInOrder(t, Mentions(rs, []), Entry(t, m.process).(process := m.process, attempts := m.attempt));
    forall p ensures RowMeans(Entry(PutRestart(t, m), p), rs + [m], [], p) {
      assert RowMeans(Entry(t, p), rs, [], p);
      RestartRow(t, rs, m, p);
    }
  }

  lemma PutRunningMeans(t: Table, rs: seq<Restart>, us: seq<Running>, m: Running)
    requires Means(t, rs, us)
    ensures Means(PutRunning(t, m), rs, us + [m])
  {
    assert Mentions(rs, us + [m]) == Mentions(rs, us) + [m.process];
    PutInOrder(t, Mentions(rs, us), Entry(t, m.process).(process := m.process, running := true, pid := m.pid));
    forall p ensures RowMeans(Entry(PutRunning(t, m), p), rs, us + [m], p) {
      assert RowMeans(Entry(t, p), rs, us, p);
      RunningRow(t, rs, us, m, p);
    }
  }

  lemma {:induction false} RestartsMean(rs: seq<Restart>)
    ensures Means(AddRestarts(EMPTY, rs), rs, [])
    decreases |rs|
  {
    if rs != [] {
      var n := |rs| - 1;
      RestartsMean(rs[..n]);
      PutRestartMeans(AddRestarts(EMPTY, rs[..n]), rs[..n], rs[n]);
      assert rs == rs[..n] + [rs[n]];
    }
  }

  lemma {:induction false} TableMeans(rs: seq<Restart>, us: seq<Running>)
    ensures Means(AddRunnings(AddRestarts(EMPTY, rs), us), rs, us)
    decreases |us|
  {
    if us == [] {
      RestartsMean(rs);
    } else {
      var n := |us| - 1;
      TableMeans(rs, us[..n]);
      PutRunningMeans(AddRunnings(AddRestarts(EMPTY, rs), us[..n]), rs, us[..n], us[n]);
      assert us == us[..n] + [us[n]];
    }
  }

  /** The rows of any output: one for each process with a restart or RUNNING line, in
      the order of the first mentions, with the last attempt and the last number. */
  lemma RowsOfOutput(output: string, rs: seq<Restart>, us: seq<Running>)
    requires rs == Restarts(SplitLines(output)) && us == Runnings(SplitLines(output))
    ensures InFirstMention(Names(ParseOutput(output)), Mentions(rs, us))
    ensures forall i :: 0 <= i < |ParseOutput(output)| ==>
        RowMeans(ParseOutput(output)[i], rs, us, Names(ParseOutput(output))[i])
  {
    TableMeans(rs, us);
    RowsOfMeaning(ParseTable(SplitLines(output)), rs, us);
  }

  function Names(rows: seq<ProcessResult>): (ps: seq<string>)
    ensures |ps| == |rows|
  {
    seq(|rows|, i requires 0 <= i < |rows| => rows[i].process)
  }

  lemma RowsOfMeaning(t: Table, rs: seq<Restart>, us: seq<Running>)
    requires Means(t, rs, us)
    ensures InFirstMention(Names(Rows(t)), Mentions(rs, us))
    ensures forall i :: 0 <= i < |Rows(t)| ==> RowMeans(Rows(t)[i], rs, us, Names(Rows(t))[i])
  {
    forall i | 0 <= i < |Rows(t)| ensures RowMeans(Rows(t)[i], rs, us, t.order[i]) && Names(Rows(t))[i] == t.order[i] {
      assert RowMeans(Entry(t, t.order[i]), rs, us, t.order[i]);
    }
    assert Names(Rows(t)) == t.order;
  }

  /** The revision is that of the last line with one, or nothing. */
  ghost predicate LastRevisionIs(lines: seq<string>, r: string) {
    || (r == "" && forall k :: 0 <= k < |lines| ==> ParseRevision(lines[k]).None?)
    || exists i :: 0 <= i < |lines| && LastRevisionAt(lines, r, i)
  }

  predicate LastRevisionAt(lines: seq<string>, r: string, i: nat)
    requires i < |lines|
  {
    ParseRevision(lines[i]) == Some(r) && forall k :: i < k < |lines| ==> ParseRevision(lines[k]).None?
  }

  lemma StillLast(lines: seq<string>, r: string)
    requires lines != [] && ParseRevision(lines[|lines| - 1]).None? && LastRevisionIs(lines[..|lines| - 1], r)
    ensures LastRevisionIs(lines, r)
  {
    var front := lines[..|lines| - 1];
    assert forall k :: 0 <= k < |front| ==> front[k] == lines[k];
    if exists i :: 0 <= i < |front| && LastRevisionAt(front, r, i) {
      var i :| 0 <= i < |front| && LastRevisionAt(front, r, i);
      assert LastRevisionAt(lines, r, i);
    }
  }

  lemma {:induction false} RevisionOfLines(lines: seq<string>)
    ensures LastRevisionIs(lines, LastRevision(lines))
    decreases |lines|
  {
    if lines != [] {
      var n := |lines| - 1;
      if ParseRevision(lines[n]).Some? {
        assert LastRevisionAt(lines, LastRevision(lines), n);
      } else {
        RevisionOfLines(lines[..n]);
        StillLast(lines, LastRevision(lines));
      }
    }
  }
}
