/** The restart log: `restart_and_verify` in scripts/deploy-server.sh prints it,
    `parseDeploymentOutput` in internal/testdeploy/manager.go reads it back. */
module RestartLog {
  import opened Text
  import opened Supervision

  const TAG := "[deploy-server]"

  /* Lines */

  predicate BlankFree(s: string) {
    forall i :: 0 <= i < |s| ==> s[i] != ' '
  }

  predicate OneLine(s: string) {
    forall i :: 0 <= i < |s| ==> s[i] != '\n'
  }

  /** The position of the first blank, which ends a greedy [^ ]+. */
  function FirstBlank(s: string): (k: nat)
    ensures k <= |s| && BlankFree(s[..k]) && (k < |s| ==> s[k] == ' ')
  {
    if s == "" || s[0] == ' ' then 0
    else
      assert s[..1 + FirstBlank(s[1..])] == [s[0]] + s[1..][..FirstBlank(s[1..])];
      1 + FirstBlank(s[1..])
  }

  lemma {:induction false} FirstBlankAfter(a: string, b: string)
    requires BlankFree(a) && b != "" && b[0] == ' '
    ensures FirstBlank(a + b) == |a|
  {
    if a == "" {
      assert a + b == b;
    } else {
      assert (a + b)[1..] == a[1..] + b;
      FirstBlankAfter(a[1..], b);
    }
  }

  lemma NotPrefix(s: string, p: string, i: nat)
    requires i < |p| && i < |s| && s[i] != p[i]
    ensures !HasPrefix(s, p)
  {
    if |p| <= |s| {
      assert s[..|p|][i] == s[i];
    }
  }

  /** log */
  function Log(message: string): string {
    TAG + " " + message
  }

  function RestartLine(process: string, attempt: nat): string {
    Log("restarting " + (process + (" (" + Decimal(attempt) + "/5)")))
  }

  function ErrorLine(process: string): string {
    Log("ERROR: " + (process + (" did not reach RUNNING" + " after 5 restart attempts")))
  }

  datatype Restart = Restart(process: string, attempt: nat)
  datatype Running = Running(process: string, pid: nat)

  /** restartLinePattern on one line: a name without blanks, then " (d/5)". */
  function ParseRestart(line: string): Option<Restart> {
    var prefix := Log("restarting ");
    if !HasPrefix(line, prefix) then None
    else
      var rest := line[|prefix|..];
      var k := FirstBlank(rest);
      if 0 < k && |rest| == k + 6 && rest[k + 1] == '(' && '1' <= rest[k + 2] <= '5'
         && rest[k + 3] == '/' && rest[k + 4] == '5' && rest[k + 5] == ')'
      then Some(Restart(rest[..k], DigitValue(rest[k + 2])))
      else None
  }

  /** \s of the regular expression syntax */
  predicate RegexSpace(c: char) {
    c == ' ' || c == '\t' || c == '\n' || c == '\r' || (c as int) == 12
  }

  function SkipSpaces(s: string): string {
    if s != "" && RegexSpace(s[0]) then SkipSpaces(s[1..]) else s
  }

  function LeadingDigits(s: string): (d: string)
    ensures AllDigits(d) && |d| <= |s|
  {
    if s == "" || !IsDigit(s[0]) then "" else [s[0]] + LeadingDigits(s[1..])
  }

  /** runningLinePattern on one line. A number that does not fit an int is read
      as the largest int, because the error of Atoi is dropped. */
  function ParseRunning(line: string): Option<Running> {
    var k := FirstBlank(line);
    if k == 0 || k == |line| then None
    else
      var s := SkipSpaces(line[k..]);
      if !HasPrefix(s, "RUNNING") then None
      else
        var t := s[7..];
        if t == "" || !RegexSpace(t[0]) || !HasPrefix(SkipSpaces(t), "pid ") then None
        else
          var u := SkipSpaces(t)[4..];
          var d := LeadingDigits(u);
          if d == "" || |u| == |d| || u[|d|] != ',' then None
          else Some(Running(line[..k], if Value(d) <= MAX_INT then Value(d) else MAX_INT))
  }

  /* RUNNING lines */

  predicate Spaces(s: string) {
    s != "" && forall i :: 0 <= i < |s| ==> RegexSpace(s[i])
  }

  /** A status line that runningLinePattern matches: name, white space, RUNNING, white
      space, "pid ", digits, a comma. */
  predicate RunningLine(line: string, p: string, gap: string, space: string, digits: string, rest: string) {
    && p != "" && BlankFree(p) && Spaces(gap) && gap[0] == ' ' && Spaces(space)
    && digits != "" && AllDigits(digits)
    && line == p + (gap + ("RUNNING" + (space + ("pid " + (digits + ("," + rest))))))
  }

  lemma {:induction false} SkipAfter(gap: string, t: string)
    requires forall i :: 0 <= i < |gap| ==> RegexSpace(gap[i])
    requires t != "" && !RegexSpace(t[0])
    ensures SkipSpaces(gap + t) == t
  {
    if gap == "" {
      assert gap + t == t;
    } else {
      assert (gap + t)[1..] == gap[1..] + t;
      SkipAfter(gap[1..], t);
    }
  }

  lemma {:induction false} DigitsBefore(digits: string, t: string)
    requires AllDigits(digits) && t != "" && !IsDigit(t[0])
    ensures LeadingDigits(digits + t) == digits
  {
    if digits == "" {
      assert digits + t == t;
    } else {
      assert (digits + t)[1..] == digits[1..] + t;
      DigitsBefore(digits[1..], t);
      assert [digits[0]] + digits[1..] == digits;
    }
  }

  lemma {:induction false} SkippedIsSpace(s: string) returns (gap: string)
    ensures s == gap + SkipSpaces(s) && forall i :: 0 <= i < |gap| ==> RegexSpace(gap[i])
    ensures s != "" && RegexSpace(s[0]) ==> gap != "" && gap[0] == s[0]
  {
    if s != "" && RegexSpace(s[0]) {
      var more := SkippedIsSpace(s[1..]);
      gap := [s[0]] + more;
      assert s == [s[0]] + s[1..];
    } else {
      gap := "";
    }
  }

  lemma {:induction false} LeadingDigitsArePrefix(s: string)
    ensures LeadingDigits(s) == s[..|LeadingDigits(s)|]
  {
    if s != "" && IsDigit(s[0]) {
      LeadingDigitsArePrefix(s[1..]);
      assert s[..1 + |LeadingDigits(s[1..])|] == [s[0]] + s[1..][..|LeadingDigits(s[1..])|];
    }
  }

  function Pid(digits: string): (n: nat)
    requires AllDigits(digits)
  {
    if Value(digits) <= MAX_INT then Value(digits) else MAX_INT
  }

  /** Every such line is read as its process and number. */
  lemma RunningLineIsRead(line: string, p: string, gap: string, space: string, digits: string, rest: string)
    requires RunningLine(line, p, gap, space, digits, rest)
    ensures ParseRunning(line) == Some(Running(p, Pid(digits)))
  {
    var u := digits + ("," + rest);
    var t := space + ("pid " + u);
    var s := "RUNNING" + t;
    assert (gap + s)[0] == ' ';
    FirstBlankAfter(p, gap + s);
    assert line == p + (gap + s) && line[|p|..] == gap + s && line[..|p|] == p;
    SkipAfter(gap, s);
    assert s[..7] == "RUNNING" && s[7..] == t && t[0] == space[0];
    SkipAfter(space, "pid " + u);
    assert ("pid " + u)[4..] == u && ("pid " + u)[..4] == "pid ";
    DigitsBefore(digits, "," + rest);
    assert u[|digits|] == ',';
  }

  lemma PrefixAndRest(s: string, p: string)
    requires HasPrefix(s, p)
    ensures s == p + s[|p|..]
  {
    assert s == s[..|p|] + s[|p|..];
  }

  /** And nothing else is. */
  lemma ReadIsRunningLine(line: string)
    returns (p: string, gap: string, space: string, digits: string, rest: string)
    requires ParseRunning(line).Some?
    ensures RunningLine(line, p, gap, space, digits, rest)
  {
    var k := FirstBlank(line);
    p := line[..k];
    PrefixAndRest(line, p);
    gap := SkippedIsSpace(line[k..]);
    var s := SkipSpaces(line[k..]);
    PrefixAndRest(s, "RUNNING");
    space := SkippedIsSpace(s[7..]);
    digits, rest := ReadIsPid(SkipSpaces(s[7..]));
  }

  lemma ReadIsPid(s: string) returns (digits: string, rest: string)
    requires HasPrefix(s, "pid ") && |LeadingDigits(s[4..])| < |s[4..]|
    requires LeadingDigits(s[4..]) != "" && s[4..][|LeadingDigits(s[4..])|] == ','
    ensures digits != "" && AllDigits(digits) && s == "pid " + (digits + ("," + rest))
  {
    var u := s[4..];
    PrefixAndRest(s, "pid ");
    digits := LeadingDigits(u);
    LeadingDigitsArePrefix(u);
    PrefixAndRest(u, digits);
    rest := u[|digits| + 1..];
    assert u[|digits|..] == "," + rest;
  }

  /** A status whose second word is another one is not read. */
  lemma OtherStateIsNotRead(p: string, gap: string, state: string, rest: string)
    requires p != "" && BlankFree(p) && Spaces(gap) && gap[0] == ' '
    requires state != "" && state != "RUNNING" && forall i :: 0 <= i < |state| ==> !RegexSpace(state[i])
    requires rest == "" || RegexSpace(rest[0])
    ensures ParseRunning(p + (gap + (state + rest))).None?
  {
    FirstBlankAfter(p, gap + (state + rest));
    assert (p + (gap + (state + rest)))[|p|..] == gap + (state + rest);
    SkipAfter(gap, state + rest);
    OtherWord(state, rest);
  }

  lemma OtherWord(state: string, rest: string)
    requires state != "RUNNING" && forall i :: 0 <= i < |state| ==> !RegexSpace(state[i])
    requires rest == "" || RegexSpace(rest[0])
    ensures HasPrefix(state + rest, "RUNNING") ==> |state| > 7 && (state + rest)[7] == state[7]
  {
    var s := state + rest;
    if |state| < 7 && rest != "" {
      assert s[|state|] == rest[0];
      NotPrefix(s, "RUNNING", |state|);
    } else if |state| == 7 {
      assert s[..7] == state;
    }
  }

  /** [0-9a-f]{7,40} */
  predicate IsRevision(s: string) {
    7 <= |s| <= 40 && forall i :: 0 <= i < |s| ==> '0' <= s[i] <= '9' || 'a' <= s[i] <= 'f'
  }

  const SOURCE := "source revision: "
  const COMPLETED := "deployment completed: "
  const FAILED := "failed revision: "

  function RevisionAfter(line: string, message: string): Option<string> {
    var prefix := Log(message);
    if HasPrefix(line, prefix) && IsRevision(line[|prefix|..]) then Some(line[|prefix|..]) else None
  }

  /** revisionLinePattern on one line */
  function ParseRevision(line: string): Option<string> {
    if RevisionAfter(line, SOURCE).Some? then RevisionAfter(line, SOURCE)
    else if RevisionAfter(line, COMPLETED).Some? then RevisionAfter(line, COMPLETED)
    else RevisionAfter(line, FAILED)
  }

  /** The last match, or nothing. */
  function LastRevision(lines: seq<string>): string {
    if lines == [] then ""
    else
      var last := ParseRevision(lines[|lines| - 1]);
      if last.Some? then last.value else LastRevision(lines[..|lines| - 1])
  }

  function OptionToSeq<T>(o: Option<T>): seq<T> {
    if o.Some? then [o.value] else []
  }

  function Restarts(lines: seq<string>): seq<Restart> {
    if lines == [] then [] else Restarts(lines[..|lines| - 1]) + OptionToSeq(ParseRestart(lines[|lines| - 1]))
  }

  function Runnings(lines: seq<string>): seq<Running> {
    if lines == [] then [] else Runnings(lines[..|lines| - 1]) + OptionToSeq(ParseRunning(lines[|lines| - 1]))
  }

  lemma {:induction false} RestartsOfSum(a: seq<string>, b: seq<string>)
    ensures Restarts(a + b) == Restarts(a) + Restarts(b)
    decreases |b|
  {
    if b == [] {
      assert a + b == a;
    } else {
      var n := |b| - 1;
      assert (a + b)[..|a + b| - 1] == a + b[..n];
      RestartsOfSum(a, b[..n]);
    }
  }

  lemma {:induction false} RunningsOfSum(a: seq<string>, b: seq<string>)
    ensures Runnings(a + b) == Runnings(a) + Runnings(b)
    decreases |b|
  {
    if b == [] {
      assert a + b == a;
    } else {
      var n := |b| - 1;
      assert (a + b)[..|a + b| - 1] == a + b[..n];
      RunningsOfSum(a, b[..n]);
    }
  }

  lemma ParsesOfOne(line: string)
    ensures Restarts([line]) == OptionToSeq(ParseRestart(line))
    ensures Runnings([line]) == OptionToSeq(ParseRunning(line))
  {
    assert [line][..0] == [];
  }

  /* Lines and text */

  function SplitLines(text: string): (lines: seq<string>)
    ensures lines != []
  {
    if text == "" then [""]
    else if text[0] == '\n' then [""] + SplitLines(text[1..])
    else
      var rest := SplitLines(text[1..]);
      [[text[0]] + rest[0]] + rest[1..]
  }

  function Unlines(lines: seq<string>): string {
    if lines == [] then "" else lines[0] + "\n" + Unlines(lines[1..])
  }

  lemma {:induction false} SplitLine(line: string, rest: string)
    requires OneLine(line)
    ensures SplitLines(line + "\n" + rest) == [line] + SplitLines(rest)
    decreases |line|
  {
    var text := line + "\n" + rest;
    if line == "" {
      assert text[1..] == rest;
    } else {
      assert text[1..] == line[1..] + "\n" + rest;
      SplitLine(line[1..], rest);
      assert [line[0]] + line[1..] == line;
      assert ([line[1..]] + SplitLines(rest))[1..] == SplitLines(rest);
    }
  }

  lemma {:induction false} SplitUnlines(lines: seq<string>)
    requires forall i :: 0 <= i < |lines| ==> OneLine(lines[i])
    ensures SplitLines(Unlines(lines)) == lines + [""]
  {
    if lines != [] {
      SplitLine(lines[0], Unlines(lines[1..]));
      SplitUnlines(lines[1..]);
      assert [lines[0]] + (lines[1..] + [""]) == lines + [""];
    }
  }

  /* parseDeploymentOutput */

  datatype ProcessResult = ProcessResult(process: string, running: bool, attempts: nat, pid: nat)

  /** The `order` slice and the `byProcess` map. */
  datatype Table = Table(order: seq<string>, entries: map<string, ProcessResult>)

  const EMPTY := Table([], map[])

  function Entry(t: Table, process: string): ProcessResult {
    if process in t.entries then t.entries[process] else ProcessResult(process, false, 0, 0)
  }

  function Put(t: Table, r: ProcessResult): Table {
    Table(if r.process in t.entries then t.order else t.order + [r.process], t.entries[r.process := r])
  }

  function PutRestart(t: Table, m: Restart): Table {
    Put(t, Entry(t, m.process).(process := m.process, attempts := m.attempt))
  }

  function PutRunning(t: Table, m: Running): Table {
    Put(t, Entry(t, m.process).(process := m.process, running := true, pid := m.pid))
  }

  function AddRestarts(t: Table, ms: seq<Restart>): Table {
    if ms == [] then t else PutRestart(AddRestarts(t, ms[..|ms| - 1]), ms[|ms| - 1])
  }

  function AddRunnings(t: Table, ms: seq<Running>): Table {
    if ms == [] then t else PutRunning(AddRunnings(t, ms[..|ms| - 1]), ms[|ms| - 1])
  }

  function ParseTable(lines: seq<string>): Table {
    AddRunnings(AddRestarts(EMPTY, Restarts(lines)), Runnings(lines))
  }

  function Rows(t: Table): seq<ProcessResult> {
    seq(|t.order|, i requires 0 <= i < |t.order| => Entry(t, t.order[i]))
  }

  /** The revision that parseDeploymentOutput reports for an output. */
  function ParsedRevision(output: string): string {
    LastRevision(SplitLines(output))
  }

  /** The process results that it reports. */
  function ParseOutput(output: string): seq<ProcessResult> {
    Rows(ParseTable(SplitLines(output)))
  }

  /** The table's keys are exactly its order. */
  ghost predicate Consistent(t: Table) {
    forall p :: p in t.entries <==> p in t.order
  }

  lemma AddRestartAt(t: Table, ms: seq<Restart>, i: nat)
    requires i < |ms|
    ensures AddRestarts(t, ms[..i + 1]) == PutRestart(AddRestarts(t, ms[..i]), ms[i])
  {
    assert ms[..i + 1][..i] == ms[..i];
  }

  lemma AddRunningAt(t: Table, ms: seq<Running>, i: nat)
    requires i < |ms|
    ensures AddRunnings(t, ms[..i + 1]) == PutRunning(AddRunnings(t, ms[..i]), ms[i])
  {
    assert ms[..i + 1][..i] == ms[..i];
  }

  /** ensure: the row of a process, created when it is new. */
  method Ensure(t: Table, process: string) returns (u: Table)
    requires Consistent(t)
    ensures Consistent(u) && process in u.entries && u.entries[process] == Entry(t, process)
    ensures forall r: ProcessResult :: r.process == process ==> Put(u, r) == Put(t, r)
  {
    u := t;
    if process !in t.entries {
      u := Table(t.order + [process], t.entries[process := ProcessResult(process, false, 0, 0)]);
      forall r: ProcessResult | r.process == process ensures Put(u, r) == Put(t, r) {
        assert u.entries[process := r] == t.entries[process := r];
      }
    }
  }

  method ParseDeploymentOutput(output: string) returns (revision: string, results: seq<ProcessResult>)
    ensures revision == ParsedRevision(output) && results == ParseOutput(output)
  {
    var lines := SplitLines(output);
    revision := LastRevision(lines);
    var table := EMPTY;
    var restarts := Restarts(lines);
    for i := 0 to |restarts|
      invariant table == AddRestarts(EMPTY, restarts[..i]) && Consistent(table)
    {
      var m := restarts[i];
      AddRestartAt(EMPTY, restarts, i);
      var u := Ensure(table, m.process);
      table := Put(u, u.entries[m.process].(process := m.process, attempts := m.attempt));
    }
    assert restarts[..|restarts|] == restarts;
    ghost var half := table;
    var runnings := Runnings(lines);
    for i := 0 to |runnings|
      invariant table == AddRunnings(half, runnings[..i]) && Consistent(table)
    {
      var m := runnings[i];
      AddRunningAt(half, runnings, i);
      var u := Ensure(table, m.process);
      table := Put(u, u.entries[m.process].(process := m.process, running := true, pid := m.pid));
    }
    assert runnings[..|runnings|] == runnings;
    results := InOrder(table);
  }

  /** The final loop: the rows in the order of their first mention. */
  method InOrder(table: Table) returns (results: seq<ProcessResult>)
    requires Consistent(table)
    ensures results == Rows(table)
  {
    results := [];
    for i := 0 to |table.order|
      invariant |results| == i && forall k :: 0 <= k < i ==> results[k] == Entry(table, table.order[k])
    {
      results := results + [table.entries[table.order[i]]];
    }
  }

  /* restart_and_verify */

  /** What supervisorctl prints does not look like the script's own restart lines,
      is line structured, and a status names the process it was asked about. */
  ghost predicate Plain(env: Supervisor) {
    && (forall n: nat, i :: 0 <= i < |RestartReply(env, n).lines| ==>
          OneLine(RestartReply(env, n).lines[i])
          && ParseRestart(RestartReply(env, n).lines[i]).None?
          && ParseRunning(RestartReply(env, n).lines[i]).None?)
    && (forall p: string, n: nat :: OneLine(StatusReply(env, p, n)))
    && (forall p: string, n: nat :: ParseRestart(StatusReply(env, p, n)).None?)
    && (forall p: string, n: nat :: ParseRunning(StatusReply(env, p, n)).Some? ==>
          ParseRunning(StatusReply(env, p, n)).value.process == p)
  }

  /** A process name as Supervisor knows it. */
  predicate ProcessName(p: string) {
    p != "" && BlankFree(p) && OneLine(p)
  }

  ghost predicate AllOneLine(lines: seq<string>) {
    forall i :: 0 <= i < |lines| ==> OneLine(lines[i])
  }

  /** Lines that no pattern reads. */
  ghost predicate Silent(lines: seq<string>) {
    AllOneLine(lines) && Restarts(lines) == [] && Runnings(lines) == []
  }

  lemma {:induction false} SilentLines(lines: seq<string>)
    requires forall i :: 0 <= i < |lines| ==>
        OneLine(lines[i]) && ParseRestart(lines[i]).None? && ParseRunning(lines[i]).None?
    ensures Silent(lines)
    decreases |lines|
  {
    if lines != [] {
      SilentLines(lines[..|lines| - 1]);
    }
  }

  lemma SilentSum(a: seq<string>, b: seq<string>)
    requires Silent(a) && Silent(b)
    ensures Silent(a + b)
  {
    RestartsOfSum(a, b);
    RunningsOfSum(a, b);
  }

  lemma TagHasNoBlank()
    ensures BlankFree(TAG) && OneLine(TAG) && |TAG| == 15
  {
  }

  /** The script's own lines never read as a RUNNING line. */
  lemma LogIsNotRunning(message: string)
    requires message != "" && !RegexSpace(message[0]) && message[0] != 'R'
    ensures ParseRunning(Log(message)).None?
  {
    TagHasNoBlank();
    var line := Log(message);
    assert line == TAG + (" " + message);
    FirstBlankAfter(TAG, " " + message);
    assert line[15..] == " " + message;
    assert (" " + message)[1..] == message;
    assert SkipSpaces(" " + message) == message;
    NotPrefix(message, "RUNNING", 0);
  }

  /** ... nor as a restart line, unless they start like one. */
  lemma LogIsNotRestart(message: string, k: nat)
    requires k < 11 && k < |message| && message[k] != "restarting "[k]
    ensures ParseRestart(Log(message)).None?
  {
    var prefix := Log("restarting ");
    assert prefix[16 + k] == "restarting "[k];
    assert Log(message)[16 + k] == message[k];
    NotPrefix(Log(message), prefix, 16 + k);
  }

  function WaitMessage(p: string, h: nat, status: string): string {
    "waiting for " + (p + (" (" + Decimal(h) + "/5): " + status))
  }

  function FailMessage(p: string, a: nat, status: string): string {
    "restart failed for " + (p + (" (" + Decimal(a) + "/5): " + status))
  }

  lemma SilentLog(message: string, k: nat)
    requires OneLine(message) && message != "" && !RegexSpace(message[0]) && message[0] != 'R'
    requires k < 11 && k < |message| && message[k] != "restarting "[k]
    ensures Silent([Log(message)])
  {
    TagHasNoBlank();
    LogIsNotRunning(message);
    LogIsNotRestart(message, k);
    ParsesOfOne(Log(message));
  }

  lemma SilentWait(p: string, n: nat, status: string)
    requires OneLine(p) && OneLine(status)
    ensures Silent([Log(WaitMessage(p, n, status))])
  {
    var w := WaitMessage(p, n, status);
    assert w[0] == 'w';
    SilentLog(w, 0);
  }

  lemma SilentFail(p: string, n: nat, status: string)
    requires OneLine(p) && OneLine(status)
    ensures Silent([Log(FailMessage(p, n, status))])
  {
    var w := FailMessage(p, n, status);
    assert w[0] == 'r' && w[7] == ' ';
    SilentLog(w, 7);
  }

  lemma SilentError(p: string)
    requires OneLine(p)
    ensures Silent([ErrorLine(p)])
  {
    var tail := " did not reach RUNNING" + " after 5 restart attempts";
    assert OneLine(" did not reach RUNNING") && OneLine(" after 5 restart attempts");
    var w := "ERROR: " + (p + tail);
    assert w[0] == 'E';
    SilentLog(w, 0);
  }

  /** The printed restart line is read back exactly. */
  lemma RestartLineRoundTrip(p: string, attempt: nat)
    requires p != "" && BlankFree(p) && 1 <= attempt <= 5
    ensures ParseRestart(RestartLine(p, attempt)) == Some(Restart(p, attempt))
    ensures ParseRunning(RestartLine(p, attempt)).None?
  {
    var tail := " (" + Decimal(attempt) + "/5)";
    var rest := p + tail;
    var prefix := Log("restarting ");
    assert Log("restarting " + rest) == prefix + rest;
    assert (prefix + rest)[..|prefix|] == prefix && (prefix + rest)[|prefix|..] == rest;
    FirstBlankAfter(p, tail);
    assert rest[..|p|] == p;
    assert |tail| == 6 && tail[1] == '(' && tail[2] == DigitChar(attempt);
    assert tail[3] == '/' && tail[4] == '5' && tail[5] == ')';
    assert rest[|p| + 2] == tail[2];
    assert ("restarting " + rest)[0] == 'r';
    LogIsNotRunning("restarting " + rest);
  }

  /** Nothing else is read as one. */
  lemma ReadIsRestartLine(line: string)
    requires ParseRestart(line).Some?
    ensures var m := ParseRestart(line).value;
      && m.process != "" && BlankFree(m.process) && 1 <= m.attempt <= 5
      && line == "[deploy-server] restarting " + (m.process + (" (" + Decimal(m.attempt) + "/5)"))
  {
    var m, prefix := ParseRestart(line).value, Log("restarting ");
    var rest := line[|prefix|..];
    var k := FirstBlank(rest);
    assert prefix == "[deploy-server] restarting ";
    PrefixAndRest(line, prefix);
    assert Decimal(m.attempt) == [DigitChar(m.attempt)] && rest[k + 2] == DigitChar(m.attempt);
    assert rest[k..] == " (" + Decimal(m.attempt) + "/5)";
    assert rest == rest[..k] + rest[k..];
  }

  /** A revision is read from exactly these lines. */
  lemma RevisionLines(line: string, r: string)
    ensures ParseRevision(line) == Some(r) <==>
        IsRevision(r) && (|| line == "[deploy-server] source revision: " + r
                          || line == "[deploy-server] deployment completed: " + r
                          || line == "[deploy-server] failed revision: " + r)
  {
    RevisionLine(line, SOURCE, r);
    RevisionLine(line, COMPLETED, r);
    RevisionLine(line, FAILED, r);
    OneMessage(line);
  }

  lemma OneMessage(line: string)
    ensures Log(SOURCE) == "[deploy-server] source revision: "
    ensures Log(COMPLETED) == "[deploy-server] deployment completed: "
    ensures Log(FAILED) == "[deploy-server] failed revision: "
    ensures HasPrefix(line, Log(SOURCE)) ==> !HasPrefix(line, Log(COMPLETED)) && !HasPrefix(line, Log(FAILED))
    ensures HasPrefix(line, Log(COMPLETED)) ==> !HasPrefix(line, Log(FAILED))
  {
    CharOfMessage(line, SOURCE);
    CharOfMessage(line, COMPLETED);
    CharOfMessage(line, FAILED);
    SourceText();
    CompletedText();
    FailedText();
  }

  lemma SourceText()
    ensures Log(SOURCE) == "[deploy-server] source revision: "
  {
  }

  lemma CompletedText()
    ensures Log(COMPLETED) == "[deploy-server] deployment completed: "
  {
  }

  lemma FailedText()
    ensures Log(FAILED) == "[deploy-server] failed revision: "
  {
  }

  lemma CharOfMessage(line: string, message: string)
    requires message != ""
    ensures HasPrefix(line, Log(message)) ==> |line| > 16 && line[16] == message[0]
  {
    TagHasNoBlank();
    if HasPrefix(line, Log(message)) {
      assert line[16] == line[..|Log(message)|][16];
    }
  }

  lemma RevisionLine(line: string, message: string, r: string)
    ensures RevisionAfter(line, message) == Some(r) <==> IsRevision(r) && line == Log(message) + r
  {
    var prefix := Log(message);
    if HasPrefix(line, prefix) {
      PrefixAndRest(line, prefix);
    }
    if line == prefix + r {
      assert line[..|prefix|] == prefix && line[|prefix|..] == r;
    }
  }

  lemma OneLineRestart(p: string, attempt: nat)
    requires OneLine(p)
    ensures OneLine(RestartLine(p, attempt))
  {
    TagHasNoBlank();
  }

  /* The loops of restart_and_verify */

  /** The health loop of one attempt. */
  method PollHealth(p: string, env: Supervisor, before: nat) returns (out: seq<string>, r: Polled)
    ensures r == Health(env, p, before, MAX_POLLS)
    ensures Plain(env) && OneLine(p) ==> Silent(out)
  {
    out, r := [], Polled("", before);
    var h := 1;
    while h <= MAX_POLLS
      invariant 1 <= h <= MAX_POLLS + 1
      invariant if h <= MAX_POLLS then Health(env, p, before, MAX_POLLS) == Health(env, p, r.next, MAX_POLLS + 1 - h)
                else Health(env, p, before, MAX_POLLS) == r
      invariant Plain(env) && OneLine(p) ==> Silent(out)
    {
      r := Polled(StatusReply(env, p, r.next), r.next + 1);
      if IsRunning(r.status) {
        return;
      }
      if Plain(env) && OneLine(p) {
        SilentWait(p, h, r.status);
        SilentSum(out, [Log(WaitMessage(p, h, r.status))]);
      }
      out := out + [Log(WaitMessage(p, h, r.status))];
      h := h + 1;
    }
  }

  function Attempts(p: string, n: nat): seq<Restart> {
    if n == 0 then [] else Attempts(p, n - 1) + [Restart(p, n)]
  }

  predicate AreAttempts(ms: seq<Restart>, p: string, n: nat) {
    |ms| == n && forall i :: 0 <= i < n ==> ms[i] == Restart(p, i + 1)
  }

  lemma {:induction false} AttemptsAreUnique(ms: seq<Restart>, p: string, n: nat)
    requires AreAttempts(ms, p, n)
    ensures ms == Attempts(p, n)
  {
    if n > 0 {
      AttemptsAreUnique(ms[..n - 1], p, n - 1);
      assert ms == ms[..n - 1] + [ms[n - 1]];
    }
  }

  ghost predicate Printed(out: seq<string>, p: string, n: nat) {
    AllOneLine(out) && AreAttempts(Restarts(out), p, n) && Runnings(out) == []
  }

  /** The line is read as this restart and as nothing else. */
  predicate ReadsAs(line: string, p: string, attempt: nat) {
    OneLine(line) && ParseRestart(line) == Some(Restart(p, attempt)) && ParseRunning(line).None?
  }

  lemma RestartLineReads(p: string, attempt: nat)
    requires ProcessName(p) && 1 <= attempt <= MAX_ATTEMPTS
    ensures ReadsAs(RestartLine(p, attempt), p, attempt)
  {
    RestartLineRoundTrip(p, attempt);
    OneLineRestart(p, attempt);
  }

  lemma PrintedLine(out: seq<string>, p: string, n: nat, line: string)
    requires Printed(out, p, n) && ReadsAs(line, p, n + 1)
    ensures Printed(out + [line], p, n + 1)
  {
    ParsesOfOne(line);
    RestartsOfSum(out, [line]);
    RunningsOfSum(out, [line]);
  }

  lemma PrintedSilent(out: seq<string>, p: string, n: nat, more: seq<string>)
    requires Printed(out, p, n) && Silent(more)
    ensures Printed(out + more, p, n)
  {
    RestartsOfSum(out, more);
    RunningsOfSum(out, more);
  }

  lemma ReplyIsSilent(env: Supervisor, n: nat)
    requires Plain(env)
    ensures Silent(RestartReply(env, n).lines)
  {
    SilentLines(RestartReply(env, n).lines);
  }

  lemma FailIsSilent(p: string, env: Supervisor, attempt: nat, n: nat)
    requires Plain(env) && ProcessName(p)
    ensures Silent([Log(FailMessage(p, attempt, StatusReply(env, p, n)))])
  {
    SilentFail(p, attempt, StatusReply(env, p, n));
  }

  /** What has been printed for p after n restart calls. */
  ghost predicate PrintedFor(env: Supervisor, p: string, n: nat, out: seq<string>) {
    Plain(env) && ProcessName(p) ==> Printed(out, p, n)
  }

  lemma PrintedNothing(env: Supervisor, p: string)
    ensures PrintedFor(env, p, 0, [])
  {
  }

  lemma PrintedAttempt(env: Supervisor, p: string, n: nat, out: seq<string>, line: string, more: seq<string>)
    requires n < MAX_ATTEMPTS && PrintedFor(env, p, n, out)
    requires line == RestartLine(p, n + 1) && (Plain(env) && ProcessName(p) ==> Silent(more))
    ensures PrintedFor(env, p, n + 1, out + [line] + more)
  {
    if Plain(env) && ProcessName(p) {
      RestartLineReads(p, n + 1);
      PrintedLine(out, p, n, line);
      PrintedSilent(out + [line], p, n + 1, more);
    }
  }

  /** One attempt. */
  method Attempt(p: string, env: Supervisor, attempt: nat, call: nat, before: nat)
    returns (ok: bool, out: seq<string>, r: Polled)
    ensures r == Try(env, p, call, before)
    ensures ok <==> Works(env, p, call, before)
    ensures Plain(env) && ProcessName(p) ==> Silent(out)
  {
    ghost var plain := Plain(env) && ProcessName(p);
    var reply := RestartReply(env, call);
    if reply.ok {
      out, r := PollHealth(p, env, before);
    } else {
      r := Polled(StatusReply(env, p, before), before + 1);
      out := [Log(FailMessage(p, attempt, r.status))];
      if plain {
        FailIsSilent(p, env, attempt, before);
      }
    }
    if plain {
      ReplyIsSilent(env, call);
      SilentSum(reply.lines, out);
    }
    out := reply.lines + out;
    ok := reply.ok && IsRunning(r.status);
  }

  /** The restart loop for one process, whose first call is number `first`. */
  method RestartProcess(p: string, env: Supervisor, first: nat, before: nat)
    returns (out: seq<string>, visit: Visit)
    ensures visit == VisitOf(env, p, first, before, MAX_ATTEMPTS)
    ensures PrintedFor(env, p, visit.calls, out)
  {
    out := [];
    var calls, r := 0, Polled("", before);
    PrintedNothing(env, p);
    while calls < MAX_ATTEMPTS
      invariant calls <= MAX_ATTEMPTS
      invariant VisitOf(env, p, first, before, MAX_ATTEMPTS) == Remaining(env, p, first, r, calls)
      invariant PrintedFor(env, p, calls, out)
    {
      RemainingStep(env, p, first, r, calls);
      var ok, more, next := Attempt(p, env, calls + 1, first + calls, r.next);
      var line := RestartLine(p, calls + 1);
      PrintedAttempt(env, p, calls, out, line, more);
      out := out + [line] + more;
      calls, r := calls + 1, next;
      if ok {
        return out, EndOf(calls, r);
      }
    }
    visit := EndOf(calls, r);
  }

  function EndOf(calls: nat, r: Polled): Visit {
    Visit(calls, r.status, r.next)
  }

  /** The visit when `calls` attempts have failed and the last one ended with `r`. */
  function Remaining(env: Supervisor, p: string, first: nat, r: Polled, calls: nat): Visit
    requires calls <= MAX_ATTEMPTS
  {
    if calls == MAX_ATTEMPTS then EndOf(calls, r)
    else
      var v := VisitOf(env, p, first + calls, r.next, MAX_ATTEMPTS - calls);
      Visit(calls + v.calls, v.status, v.next)
  }

  lemma RemainingStep(env: Supervisor, p: string, first: nat, r: Polled, calls: nat)
    requires calls < MAX_ATTEMPTS
    ensures Works(env, p, first + calls, r.next) ==>
        Remaining(env, p, first, r, calls) == EndOf(calls + 1, Try(env, p, first + calls, r.next))
    ensures !Works(env, p, first + calls, r.next) ==>
        Remaining(env, p, first, r, calls) == Remaining(env, p, first, Try(env, p, first + calls, r.next), calls + 1)
  {
  }

  function AllAttempts(ps: seq<string>, calls: seq<nat>): seq<Restart>
    requires |calls| <= |ps|
    decreases |calls|
  {
    if calls == [] then []
    else
      var n := |calls| - 1;
      AllAttempts(ps, calls[..n]) + Attempts(ps[n], calls[n])
  }

  ghost predicate LogOf(out: seq<string>, ps: seq<string>, calls: seq<nat>, last: seq<string>)
    requires |calls| <= |ps|
  {
    AllOneLine(out) && Restarts(out) == AllAttempts(ps, calls) && Runnings(out) == Runnings(last)
  }

  lemma LogOfOneMore(out: seq<string>, ps: seq<string>, calls: seq<nat>, last: seq<string>,
                     more: seq<string>, n: nat, status: string)
    requires |calls| < |ps| && LogOf(out, ps, calls, last)
    requires Printed(more, ps[|calls|], n) && OneLine(status) && ParseRestart(status).None?
    ensures LogOf(out + more + [status], ps, calls + [n], last + [status])
  {
    AttemptsAreUnique(Restarts(more), ps[|calls|], n);
    AttemptsOfOneMore(ps, calls, n);
    RestartsOfLog(out, more, status);
    RunningsOfLog(out, more, status);
    RunningsOfSum(last, [status]);
  }

  lemma RestartsOfLog(out: seq<string>, more: seq<string>, status: string)
    requires ParseRestart(status).None?
    ensures Restarts(out + more + [status]) == Restarts(out) + Restarts(more)
  {
    RestartsOfSum(out, more);
    RestartsOfSum(out + more, [status]);
    ParsesOfOne(status);
  }

  lemma RunningsOfLog(out: seq<string>, more: seq<string>, status: string)
    requires Runnings(more) == []
    ensures Runnings(out + more + [status]) == Runnings(out) + Runnings([status])
  {
    RunningsOfSum(out, more);
    RunningsOfSum(out + more, [status]);
  }

  lemma AttemptsOfOneMore(ps: seq<string>, calls: seq<nat>, n: nat)
    requires |calls| < |ps|
    ensures AllAttempts(ps, calls + [n]) == AllAttempts(ps, calls) + Attempts(ps[|calls|], n)
  {
    assert (calls + [n])[..|calls|] == calls;
  }

  lemma LogOfSilent(out: seq<string>, ps: seq<string>, calls: seq<nat>, last: seq<string>, more: seq<string>)
    requires |calls| <= |ps| && LogOf(out, ps, calls, last) && Silent(more)
    ensures LogOf(out + more, ps, calls, last)
  {
    RestartsOfSum(out, more);
    RunningsOfSum(out, more);
  }

  function Calls(vs: seq<Visit>): (calls: seq<nat>)
    ensures |calls| == |vs|
  {
    seq(|vs|, i requires 0 <= i < |vs| => vs[i].calls)
  }

  function Last(vs: seq<Visit>): (last: seq<string>)
    ensures |last| == |vs|
  {
    seq(|vs|, i requires 0 <= i < |vs| => vs[i].status)
  }

  lemma OneMoreVisit(vs: seq<Visit>, v: Visit)
    ensures Calls(vs + [v]) == Calls(vs) + [v.calls] && Last(vs + [v]) == Last(vs) + [v.status]
  {
  }

  /** The log of a run, when supervisorctl's own output is plain. */
  ghost predicate Logged(env: Supervisor, ps: seq<string>, vs: seq<Visit>, out: seq<string>)
    requires |vs| <= |ps|
  {
    Plain(env) && (forall i :: 0 <= i < |ps| ==> ProcessName(ps[i])) ==> LogOf(out, ps, Calls(vs), Last(vs))
  }

  lemma LoggedNothing(env: Supervisor, ps: seq<string>)
    ensures Logged(env, ps, [], [])
  {
  }

  lemma LoggedOneMore(env: Supervisor, ps: seq<string>, vs: seq<Visit>, out: seq<string>, more: seq<string>,
                      v: Visit)
    requires |vs| < |ps| && Logged(env, ps, vs, out) && PrintedFor(env, ps[|vs|], v.calls, more)
    requires v.next > 0 && v.status == StatusReply(env, ps[|vs|], v.next - 1)
    ensures Logged(env, ps, vs + [v], out + more + [v.status])
  {
    if Plain(env) && forall i :: 0 <= i < |ps| ==> ProcessName(ps[i]) {
      LogOfOneMore(out, ps, Calls(vs), Last(vs), more, v.calls, v.status);
      OneMoreVisit(vs, v);
    }
  }

  lemma LoggedError(env: Supervisor, ps: seq<string>, vs: seq<Visit>, out: seq<string>, p: string)
    requires |vs| <= |ps| && Logged(env, ps, vs, out) && p in ps
    ensures Logged(env, ps, vs, out + [ErrorLine(p)])
  {
    if Plain(env) && forall i :: 0 <= i < |ps| ==> ProcessName(ps[i]) {
      SilentError(p);
      LogOfSilent(out, ps, Calls(vs), Last(vs), [ErrorLine(p)]);
    }
  }

  lemma OneMoreProcess(env: Supervisor, ps: seq<string>, all: seq<Visit>, call: nat, n: nat, vs: seq<Visit>, v: Visit,
                       out: seq<string>, more: seq<string>)
    requires |vs| < |ps| && v == VisitOf(env, ps[|vs|], call, n, MAX_ATTEMPTS)
    requires all == vs + VisitAll(env, ps[|vs|..], call, n)
    requires Logged(env, ps, vs, out) && PrintedFor(env, ps[|vs|], v.calls, more)
    ensures IsRunning(v.status) ==> all == vs + [v] + VisitAll(env, ps[|vs| + 1..], call + v.calls, v.next)
    ensures !IsRunning(v.status) ==> all == vs + [v]
    ensures Logged(env, ps, vs + [v], out + more + [v.status])
  {
    VisitNext(env, ps, |vs|, call, n, vs, v);
    LoggedOneMore(env, ps, vs, out, more, v);
  }

  /** What holds between two processes of the loop below. */
  ghost predicate SoFar(env: Supervisor, ps: seq<string>, restarts: nat, seen: nat, visits: seq<Visit>,
                        out: seq<string>) {
    && |visits| <= |ps| && Logged(env, ps, visits, out)
    && VisitAll(env, ps, 0, 0) == visits + VisitAll(env, ps[|visits|..], restarts, seen)
    && (visits != [] ==> IsRunning(visits[|visits| - 1].status))
  }

  datatype Progress = Underway | Elsewhere

  ghost function ProgressAt(env: Supervisor, ps: seq<string>, restarts: nat, seen: nat, visits: seq<Visit>,
                            out: seq<string>): Progress {
    if SoFar(env, ps, restarts, seen, visits, out) then Underway else Elsewhere
  }

  /** restart_and_verify: the visits it makes, and success exactly when every
      process was left RUNNING. */
  method RestartAndVerify(processes: seq<string>, env: Supervisor)
    returns (ok: bool, out: seq<string>, visits: seq<Visit>)
    ensures visits == VisitAll(env, processes, 0, 0)
    ensures ok <==> Passes(env, processes)
    ensures Logged(env, processes, visits, out)
  {
    ok, out, visits := true, [], [];
    SoFarNothing(env, processes);
    var restarts: nat, seen: nat := 0, 0;
    for k := 0 to |processes|
      invariant |visits| == k && ProgressAt(env, processes, restarts, seen, visits, out) == Underway
    {
      var process := processes[k];
      var more, visit := RestartProcess(process, env, restarts, seen);
      SoFarOneMore(env, processes, restarts, seen, visits, visit, out, more);
      out := out + more + [visit.status];
      visits := visits + [visit];
      restarts, seen := restarts + visit.calls, visit.next;
      if !IsRunning(visit.status) {
        out := out + [ErrorLine(process)];
        ok := false;
        return;
      }
    }
    SoFarAll(env, processes, restarts, seen, visits, out);
  }

  lemma SoFarNothing(env: Supervisor, ps: seq<string>)
    ensures ProgressAt(env, ps, 0, 0, [], []) == Underway
  {
    LoggedNothing(env, ps);
    assert ps[0..] == ps;
  }

  lemma SoFarAll(env: Supervisor, ps: seq<string>, restarts: nat, seen: nat, visits: seq<Visit>, out: seq<string>)
    requires ProgressAt(env, ps, restarts, seen, visits, out) == Underway && |visits| == |ps|
    ensures visits == VisitAll(env, ps, 0, 0) && Passes(env, ps) && Logged(env, ps, visits, out)
  {
    assert ps[|ps|..] == [];
    PassesExactly(env, ps, visits);
  }

  lemma SoFarOneMore(env: Supervisor, ps: seq<string>, restarts: nat, seen: nat, vs: seq<Visit>, v: Visit,
                     out: seq<string>, more: seq<string>)
    requires ProgressAt(env, ps, restarts, seen, vs, out) == Underway
    requires |vs| < |ps| && v == VisitOf(env, ps[|vs|], restarts, seen, MAX_ATTEMPTS)
    requires PrintedFor(env, ps[|vs|], v.calls, more)
    ensures IsRunning(v.status) ==>
        ProgressAt(env, ps, restarts + v.calls, v.next, vs + [v], out + more + [v.status]) == Underway
    ensures !IsRunning(v.status) ==>
        vs + [v] == VisitAll(env, ps, 0, 0) && !Passes(env, ps)
        && Logged(env, ps, vs + [v], out + more + [v.status] + [ErrorLine(ps[|vs|])])
  {
    var all := VisitAll(env, ps, 0, 0);
    OneMoreProcess(env, ps, all, restarts, seen, vs, v, out, more);
    if !IsRunning(v.status) {
      LoggedError(env, ps, vs + [v], out + more + [v.status], ps[|vs|]);
      PassesExactly(env, ps, vs + [v]);
    }
  }

  /* The round trip */

  /** What the parser should report for one process. */
  function Report(p: string, calls: nat, status: string): ProcessResult {
    match ParseRunning(status)
    case Some(m) => ProcessResult(p, true, calls, m.pid)
    case None => ProcessResult(p, false, calls, 0)
  }

  predicate Distinct(ps: seq<string>) {
    forall i, j :: 0 <= i < j < |ps| ==> ps[i] != ps[j]
  }

  /** A table with one row for each process of `ps`, in order. */
  ghost predicate TableOf(t: Table, ps: seq<string>, rows: seq<ProcessResult>) {
    && |rows| == |ps| && t.order == ps
    && (forall p :: p in t.entries <==> p in ps)
    && (forall i :: 0 <= i < |ps| ==> t.entries[ps[i]] == rows[i])
  }

  lemma {:induction false} AddAttempts(t: Table, p: string, n: nat)
    requires p !in t.entries && n > 0
    ensures AddRestarts(t, Attempts(p, n)) == Table(t.order + [p], t.entries[p := ProcessResult(p, false, n, 0)])
  {
    var ms := Attempts(p, n);
    assert ms[..|ms| - 1] == Attempts(p, n - 1);
    if n > 1 {
      AddAttempts(t, p, n - 1);
    }
  }

  lemma {:induction false} AddRestartsOfSum(t: Table, a: seq<Restart>, b: seq<Restart>)
    ensures AddRestarts(t, a + b) == AddRestarts(AddRestarts(t, a), b)
    decreases |b|
  {
    if b == [] {
      assert a + b == a;
    } else {
      assert (a + b)[..|a + b| - 1] == a + b[..|b| - 1];
      AddRestartsOfSum(t, a, b[..|b| - 1]);
    }
  }

  function Counted(ps: seq<string>, calls: seq<nat>): (rows: seq<ProcessResult>)
    requires |calls| == |ps|
    ensures |rows| == |ps|
  {
    seq(|ps|, i requires 0 <= i < |ps| => ProcessResult(ps[i], false, calls[i], 0))
  }

  lemma TableExtend(t: Table, ps: seq<string>, rows: seq<ProcessResult>, r: ProcessResult)
    requires TableOf(t, ps, rows) && r.process !in ps
    ensures TableOf(Table(t.order + [r.process], t.entries[r.process := r]), ps + [r.process], rows + [r])
  {
  }

  lemma CountedOneMore(ps: seq<string>, calls: seq<nat>, n: nat)
    requires |calls| == |ps| == n + 1
    ensures Counted(ps, calls) == Counted(ps[..n], calls[..n]) + [ProcessResult(ps[n], false, calls[n], 0)]
  {
  }

  lemma RestartStep(t: Table, ps: seq<string>, calls: seq<nat>, n: nat)
    requires |calls| == |ps| == n + 1 && Distinct(ps) && calls[n] > 0
    requires TableOf(t, ps[..n], Counted(ps[..n], calls[..n]))
    ensures TableOf(AddRestarts(t, Attempts(ps[n], calls[n])), ps, Counted(ps, calls))
  {
    var p, row := ps[n], ProcessResult(ps[n], false, calls[n], 0);
    assert p !in ps[..n];
    AddAttempts(t, p, calls[n]);
    CountedOneMore(ps, calls, n);
    TableExtend(t, ps[..n], Counted(ps[..n], calls[..n]), row);
    assert ps == ps[..n] + [p];
  }

  lemma {:induction false} RestartTable(ps: seq<string>, calls: seq<nat>)
    requires |calls| == |ps| && Distinct(ps)
    requires forall i :: 0 <= i < |calls| ==> calls[i] > 0
    ensures TableOf(AddRestarts(EMPTY, AllAttempts(ps, calls)), ps, Counted(ps, calls))
    decreases |ps|
  {
    if ps != [] {
      var n := |ps| - 1;
      RestartTable(ps[..n], calls[..n]);
      AttemptsOfPrefix(ps, calls[..n]);
      var before := AllAttempts(ps, calls[..n]);
      RestartStep(AddRestarts(EMPTY, before), ps, calls, n);
      AddRestartsOfSum(EMPTY, before, Attempts(ps[n], calls[n]));
    }
  }

  lemma {:induction false} AttemptsOfPrefix(ps: seq<string>, calls: seq<nat>)
    requires |calls| < |ps|
    ensures AllAttempts(ps, calls) == AllAttempts(ps[..|ps| - 1], calls)
    decreases |calls|
  {
    if calls != [] {
      AttemptsOfPrefix(ps, calls[..|calls| - 1]);
    }
  }

  /** The rows once the first `k` final statuses have been read. */
  function Reported(ps: seq<string>, calls: seq<nat>, last: seq<string>, k: nat): (rows: seq<ProcessResult>)
    requires |calls| == |last| == |ps| && k <= |ps|
    ensures |rows| == |ps|
  {
    seq(|ps|, i requires 0 <= i < |ps| =>
      if i < k then Report(ps[i], calls[i], last[i]) else ProcessResult(ps[i], false, calls[i], 0))
  }

  lemma RunningStep(t: Table, ps: seq<string>, calls: seq<nat>, last: seq<string>, k: nat, m: Running)
    requires |calls| == |last| == |ps| && 0 < k <= |ps| && Distinct(ps)
    requires TableOf(t, ps, Reported(ps, calls, last, k - 1))
    requires ParseRunning(last[k - 1]) == Some(m) && m.process == ps[k - 1]
    ensures TableOf(PutRunning(t, m), ps, Reported(ps, calls, last, k))
  {
    var row := Report(ps[k - 1], calls[k - 1], last[k - 1]);
    assert ps[k - 1] in t.entries;
    assert PutRunning(t, m) == Table(ps, t.entries[m.process := row]);
    assert Reported(ps, calls, last, k) == Reported(ps, calls, last, k - 1)[k - 1 := row];
  }

  lemma NotRunningStep(ps: seq<string>, calls: seq<nat>, last: seq<string>, k: nat)
    requires |calls| == |last| == |ps| && 0 < k <= |ps| && ParseRunning(last[k - 1]).None?
    ensures Reported(ps, calls, last, k) == Reported(ps, calls, last, k - 1)
  {
  }

  lemma AddOneRunning(t: Table, before: seq<Running>, m: Running)
    ensures AddRunnings(t, before + [m]) == PutRunning(AddRunnings(t, before), m)
  {
    assert (before + [m])[..|before|] == before;
  }

  lemma OneMoreStatus(ps: seq<string>, calls: seq<nat>, last: seq<string>, t: Table, k: nat)
    requires |calls| == |last| == |ps| && 0 < k <= |ps| && Distinct(ps)
    requires TableOf(AddRunnings(t, Runnings(last[..k - 1])), ps, Reported(ps, calls, last, k - 1))
    requires ParseRunning(last[k - 1]).Some? ==> ParseRunning(last[k - 1]).value.process == ps[k - 1]
    ensures TableOf(AddRunnings(t, Runnings(last[..k])), ps, Reported(ps, calls, last, k))
  {
    var before := Runnings(last[..k - 1]);
    assert last[..k][..k - 1] == last[..k - 1];
    match ParseRunning(last[k - 1])
    case None =>
      NotRunningStep(ps, calls, last, k);
      assert Runnings(last[..k]) == before;
    case Some(m) =>
      RunningStep(AddRunnings(t, before), ps, calls, last, k, m);
      AddOneRunning(t, before, m);
  }

  lemma {:induction false} RunningTable(ps: seq<string>, calls: seq<nat>, last: seq<string>, t: Table, k: nat)
    requires |calls| == |last| == |ps| && k <= |ps| && Distinct(ps)
    requires TableOf(t, ps, Counted(ps, calls))
    requires forall i :: 0 <= i < |last| && ParseRunning(last[i]).Some? ==> ParseRunning(last[i]).value.process == ps[i]
    ensures TableOf(AddRunnings(t, Runnings(last[..k])), ps, Reported(ps, calls, last, k))
    decreases k
  {
    if k == 0 {
      assert last[..0] == [];
      assert Reported(ps, calls, last, 0) == Counted(ps, calls);
    } else {
      RunningTable(ps, calls, last, t, k - 1);
      OneMoreStatus(ps, calls, last, t, k);
    }
  }

  /** Reading back the log of a run gives one row for each process it reached, in
      order, with the number of restart calls that were really made, and the pid
      of the final status when that is a RUNNING line. */
  lemma RestartLogRoundTrip(ps: seq<string>, calls: seq<nat>, last: seq<string>, out: seq<string>)
    requires |calls| == |last| <= |ps| && Distinct(ps)
    requires forall i :: 0 <= i < |calls| ==> calls[i] > 0
    requires forall i :: 0 <= i < |last| && ParseRunning(last[i]).Some? ==> ParseRunning(last[i]).value.process == ps[i]
    requires LogOf(out, ps, calls, last)
    ensures ParseOutput(Unlines(out)) == Reported(ps[..|calls|], calls, last, |calls|)
  {
    var reached := ps[..|calls|];
    AttemptsOfReached(ps, calls);
    TableOfLog(reached, calls, last);
    ParseOfUnlines(out);
    RowsOfTable(ParseTable(SplitLines(Unlines(out))), reached, Reported(reached, calls, last, |calls|));
  }

  lemma ParseOfUnlines(out: seq<string>)
    requires AllOneLine(out)
    ensures ParseTable(SplitLines(Unlines(out))) == AddRunnings(AddRestarts(EMPTY, Restarts(out)), Runnings(out))
  {
    SplitUnlines(out);
    RestartsOfSum(out, [""]);
    RunningsOfSum(out, [""]);
    ParsesOfOne("");
    assert ParseRestart("").None? && ParseRunning("").None?;
    assert Restarts(out) + [] == Restarts(out) && Runnings(out) + [] == Runnings(out);
  }

  lemma TableOfLog(ps: seq<string>, calls: seq<nat>, last: seq<string>)
    requires |calls| == |last| == |ps| && Distinct(ps)
    requires forall i :: 0 <= i < |calls| ==> calls[i] > 0
    requires forall i :: 0 <= i < |last| && ParseRunning(last[i]).Some? ==> ParseRunning(last[i]).value.process == ps[i]
    ensures TableOf(AddRunnings(AddRestarts(EMPTY, AllAttempts(ps, calls)), Runnings(last)), ps,
                    Reported(ps, calls, last, |ps|))
  {
    RestartTable(ps, calls);
    RunningTable(ps, calls, last, AddRestarts(EMPTY, AllAttempts(ps, calls)), |ps|);
    assert last[..|ps|] == last;
  }

  lemma RowsOfTable(t: Table, ps: seq<string>, rows: seq<ProcessResult>)
    requires TableOf(t, ps, rows)
    ensures Rows(t) == rows
  {
    assert forall i :: 0 <= i < |ps| ==> ps[i] in t.entries;
  }

  lemma {:induction false} AttemptsOfReached(ps: seq<string>, calls: seq<nat>)
    requires |calls| <= |ps|
    ensures AllAttempts(ps, calls) == AllAttempts(ps[..|calls|], calls)
    decreases |ps|
  {
    if |calls| < |ps| {
      AttemptsOfPrefix(ps, calls);
      AttemptsOfReached(ps[..|ps| - 1], calls);
      assert ps[..|ps| - 1][..|calls|] == ps[..|calls|];
    } else {
      assert ps[..|calls|] == ps;
    }
  }

  /** What should be reported about restarting these processes. */
  function RestartRows(env: Supervisor, ps: seq<string>): (rows: seq<ProcessResult>)
    ensures |rows| == |VisitAll(env, ps, 0, 0)|
  {
    var vs := VisitAll(env, ps, 0, 0);
    seq(|vs|, i requires 0 <= i < |vs| => Report(ps[i], vs[i].calls, vs[i].status))
  }

  /** The status is a RUNNING line of this process with this number. */
  ghost predicate SaysRunning(status: string, p: string, pid: nat) {
    exists gap, space, digits, rest :: RunningLine(status, p, gap, space, digits, rest) && pid == Pid(digits)
  }

  /** What the row of a process says about its restart calls and its last status: state
      and number are those of a RUNNING line, and without one there are none. */
  ghost predicate IsRow(row: ProcessResult, p: string, calls: nat, status: string) {
    && row.process == p && row.attempts == calls
    && (row.running ==> SaysRunning(status, p, row.pid))
    && (!row.running ==> row.pid == 0 && forall q, pid: nat :: !SaysRunning(status, q, pid))
  }

  lemma ReportIsRow(p: string, calls: nat, status: string)
    requires ParseRunning(status).Some? ==> ParseRunning(status).value.process == p
    ensures IsRow(Report(p, calls, status), p, calls, status)
  {
    if ParseRunning(status).Some? {
      var q, gap, space, digits, rest := ReadIsRunningLine(status);
      RunningLineIsRead(status, q, gap, space, digits, rest);
    } else {
      forall q, pid: nat ensures !SaysRunning(status, q, pid) {
        if SaysRunning(status, q, pid) {
          var gap, space, digits, rest :| RunningLine(status, q, gap, space, digits, rest) && pid == Pid(digits);
          RunningLineIsRead(status, q, gap, space, digits, rest);
        }
      }
    }
  }

  ghost predicate AreRows(rows: seq<ProcessResult>, env: Supervisor, ps: seq<string>) {
    && |rows| == |VisitAll(env, ps, 0, 0)|
    && forall i :: 0 <= i < |rows| ==>
         IsRow(rows[i], ps[i], VisitAll(env, ps, 0, 0)[i].calls, VisitAll(env, ps, 0, 0)[i].status)
  }

  /** The rows of a restart, for each process that was reached. */
  lemma RestartRowsMean(env: Supervisor, ps: seq<string>)
    requires Plain(env)
    ensures AreRows(RestartRows(env, ps), env, ps)
  {
    var vs := VisitAll(env, ps, 0, 0);
    forall i | 0 <= i < |vs| ensures IsRow(RestartRows(env, ps)[i], ps[i], vs[i].calls, vs[i].status) {
      VisitSpeaks(env, ps, 0, 0, vs, i);
      ReportIsRow(ps[i], vs[i].calls, vs[i].status);
    }
  }

  /** A status line with its number in decimal gives that number. */
  lemma StatusLineIsRead(p: string, gap: string, space: string, n: nat, rest: string)
    requires p != "" && BlankFree(p) && Spaces(gap) && gap[0] == ' ' && Spaces(space) && n <= MAX_INT
    ensures ParseRunning(p + (gap + ("RUNNING" + (space + ("pid " + (Decimal(n) + ("," + rest)))))))
         == Some(Running(p, n))
  {
    var line := p + (gap + ("RUNNING" + (space + ("pid " + (Decimal(n) + ("," + rest))))));
    RunningLineIsRead(line, p, gap, space, Decimal(n), rest);
    ValueOfDecimal(n);
  }

  /** With blanks around RUNNING the script takes it as running, too. */
  lemma RunningLineIsRunning(p: string, gap: string, after: string)
    requires gap != "" && gap[|gap| - 1] == ' ' && after != "" && after[0] == ' '
    ensures IsRunning(p + gap + "RUNNING" + after)
  {
    var front, back := p + gap[..|gap| - 1], after[1..];
    ContainsInMiddle(front, " RUNNING ", back);
    assert gap == gap[..|gap| - 1] + " " && after == " " + back;
    assert front + " RUNNING " + back == p + gap + "RUNNING" + after;
  }

  lemma ReportedRows(env: Supervisor, ps: seq<string>, vs: seq<Visit>)
    requires vs == VisitAll(env, ps, 0, 0)
    ensures Reported(ps[..|vs|], Calls(vs), Last(vs), |vs|) == RestartRows(env, ps)
  {
  }

  /** Whatever silent lines surround it, the log of restarting some processes is read
      back as their rows. */
  lemma RowsAreRead(env: Supervisor, ps: seq<string>, out: seq<string>)
    requires Distinct(ps) && Plain(env)
    requires LogOf(out, ps, Calls(VisitAll(env, ps, 0, 0)), Last(VisitAll(env, ps, 0, 0)))
    ensures ParseOutput(Unlines(out)) == RestartRows(env, ps)
  {
    var vs := VisitAll(env, ps, 0, 0);
    forall i | 0 <= i < |vs|
      ensures Calls(vs)[i] > 0
      ensures ParseRunning(Last(vs)[i]).Some? ==> ParseRunning(Last(vs)[i]).value.process == ps[i]
    {
      VisitSpeaks(env, ps, 0, 0, vs, i);
    }
    RestartLogRoundTrip(ps, Calls(vs), Last(vs), out);
    ReportedRows(env, ps, vs);
  }

  lemma LogOfSilentBefore(out: seq<string>, ps: seq<string>, calls: seq<nat>, last: seq<string>, more: seq<string>)
    requires |calls| <= |ps| && LogOf(out, ps, calls, last) && Silent(more)
    ensures LogOf(more + out, ps, calls, last)
  {
    RestartsOfSum(more, out);
    RunningsOfSum(more, out);
    assert [] + Restarts(out) == Restarts(out) && [] + Runnings(out) == Runnings(out);
  }

  /** `restart` from end to end: run the script, parse what it printed. The
      reported numbers are those of the calls that were really made. */
  method RestartProcesses(processes: seq<string>, env: Supervisor) returns (ok: bool, results: seq<ProcessResult>)
    requires Distinct(processes) && Plain(env)
    requires forall i :: 0 <= i < |processes| ==> ProcessName(processes[i])
    ensures ok <==> Passes(env, processes)
    ensures results == RestartRows(env, processes) && AreRows(results, env, processes)
  {
    var out, visits;
    ok, out, visits := RestartAndVerify(processes, env);
    var revision;
    revision, results := ParseDeploymentOutput(Unlines(out));
    RowsAreRead(env, processes, out);
    RestartRowsMean(env, processes);
  }
}
