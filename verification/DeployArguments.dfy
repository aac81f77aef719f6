/** The command line between internal/testdeploy/service.go, which builds it, and
    scripts/deploy-server.sh, which parses it and resolves the processes. */
module DeployArguments {
  import opened Text
  import opened Selectors

  const DEFAULT_KEEP: nat := 3

  predicate ProcessAction(action: string) {
    action == "plan" || action == "deploy" || action == "status" || action == "restart"
  }

  /* The Go side */

  /** The options of a request, behind its processes. */
  function Options(input: Input): seq<string> {
    (if input.skipTests then ["--skip-tests"] else [])
    + (if input.keepBackups > 0 then ["--keep-backups", Decimal(input.keepBackups)] else [])
  }

  function BuildArgs(action: string, input: Input): seq<string> {
    [action, input.service] + (input.processes + Options(input))
  }

  /** runDeploymentCommand up to the call of the runner. */
  method BuildArguments(action: string, input: Input) returns (args: seq<string>)
    ensures args == BuildArgs(action, input)
  {
    args := [action, input.service];
    args := args + input.processes;
    if input.skipTests {
      args := args + ["--skip-tests"];
    }
    if input.keepBackups > 0 {
      args := args + ["--keep-backups", Decimal(input.keepBackups)];
    }
  }

  /* The script side */

  datatype ScriptArgs = ScriptArgs(action: string, service: string, selectors: seq<string>, keep: nat)

  /** Usage carries the exit code, Die the reason. */
  datatype Parsed = Parsed(args: ScriptArgs) | Usage(code: nat) | Die(reason: string)

  /** ^[1-9][0-9]*$ */
  predicate PositiveNumber(s: string) {
    s != "" && AllDigits(s) && s[0] != '0'
  }

  /** The option loop. */
  function ParseOptions(args: seq<string>, acc: ScriptArgs): Parsed {
    if args == [] then
      if acc.action != "processes" && acc.selectors == [] then Die(acc.action + " requires at least one process")
      else Parsed(acc)
    else if args[0] == "--skip-tests" then ParseOptions(args[1..], acc)
    else if args[0] == "--keep-backups" then
      if |args| < 2 then Die("--keep-backups requires a value")
      else if !PositiveNumber(args[1]) then Die("--keep-backups must be a positive integer")
      else ParseOptions(args[2..], acc.(keep := Value(args[1])))
    else if args[0] == "-h" || args[0] == "--help" then Usage(0)
    else if HasPrefix(args[0], "-") then Die("unknown option: " + args[0])
    else ParseOptions(args[1..], acc.(selectors := acc.selectors + [args[0]]))
  }

  function Parse(args: seq<string>): Parsed {
    if args == [] then Usage(64)
    else if args[0] == "list" then
      if |args| == 1 then Parsed(ScriptArgs("list", "", [], DEFAULT_KEEP))
      else Die("list does not accept additional arguments")
    else if args[0] == "-h" || args[0] == "--help" then Usage(0)
    else
      var named := args[0] == "processes" || ProcessAction(args[0]);
      var action := if named then args[0] else "deploy";
      var rest := if named then args[1..] else args;
      if rest == [] then Die(action + " requires a service")
      else ParseOptions(rest[1..], ScriptArgs(action, rest[0], [], DEFAULT_KEEP))
  }

  /** parse_args: `next` is the position of $1. */
  method ParseArgs(args: seq<string>) returns (r: Parsed)
    ensures r == Parse(args)
  {
    if |args| == 0 {
      return Usage(64);
    }
    var action, next := "deploy", 0;
    if args[0] == "list" {
      if |args| > 1 {
        return Die("list does not accept additional arguments");
      }
      return Parsed(ScriptArgs("list", "", [], DEFAULT_KEEP));
    } else if args[0] == "processes" || ProcessAction(args[0]) {
      action, next := args[0], 1;
    } else if args[0] == "-h" || args[0] == "--help" {
      return Usage(0);
    }
    if next >= |args| {
      return Die(action + " requires a service");
    }
    var service := args[next];
    next := next + 1;
    var selectors: seq<string>, keep := [], DEFAULT_KEEP;
    assert |args| > 1 ==> args[1..][1..] == args[2..];
    while next < |args|
      invariant next <= |args|
      invariant ParseOptions(args[next..], ScriptArgs(action, service, selectors, keep)) == Parse(args)
      decreases |args| - next
    {
      assert args[next..][1..] == args[next + 1..];
      if args[next] == "--skip-tests" {
      } else if args[next] == "--keep-backups" {
        if next + 1 >= |args| {
          return Die("--keep-backups requires a value");
        }
        assert args[next..][2..] == args[next + 2..];
        if !PositiveNumber(args[next + 1]) {
          return Die("--keep-backups must be a positive integer");
        }
        keep := Value(args[next + 1]);
        next := next + 1;
      } else if args[next] == "-h" || args[next] == "--help" {
        return Usage(0);
      } else if HasPrefix(args[next], "-") {
        return Die("unknown option: " + args[next]);
      } else {
        selectors := selectors + [args[next]];
      }
      next := next + 1;
    }
    if action != "processes" && |selectors| == 0 {
      return Die(action + " requires at least one process");
    }
    return Parsed(ScriptArgs(action, service, selectors, keep));
  }

  /* The round trip */

  lemma SelectorIsNoOption(s: string)
    requires ValidSelector(s)
    ensures s != "" && s[0] != '-'
  {
  }

  lemma {:induction false} SelectorsAreCollected(processes: seq<string>, rest: seq<string>, acc: ScriptArgs)
    requires forall i :: 0 <= i < |processes| ==> ValidSelector(processes[i])
    ensures ParseOptions(processes + rest, acc) == ParseOptions(rest, acc.(selectors := acc.selectors + processes))
    decreases |processes|
  {
    if processes == [] {
      assert processes + rest == rest && acc.selectors + processes == acc.selectors;
    } else {
      var p := processes[0];
      SelectorIsNoOption(p);
      assert (processes + rest)[1..] == processes[1..] + rest;
      var next := acc.(selectors := acc.selectors + [p]);
      SelectorsAreCollected(processes[1..], rest, next);
      assert next.selectors + processes[1..] == acc.selectors + processes;
    }
  }

  lemma KeepIsRead(n: nat, acc: ScriptArgs)
    requires n > 0 && acc.selectors != []
    ensures ParseOptions(["--keep-backups", Decimal(n)], acc) == Parsed(acc.(keep := n))
  {
    DecimalHasNoLeadingZero(n);
    ValueOfDecimal(n);
    assert ["--keep-backups", Decimal(n)][2..] == [];
  }

  lemma OptionsAreRead(input: Input, acc: ScriptArgs)
    requires acc.selectors != [] && input.keepBackups >= 0
    ensures ParseOptions(Options(input), acc)
         == Parsed(acc.(keep := if input.keepBackups == 0 then acc.keep else input.keepBackups))
  {
    var keep := if input.keepBackups > 0 then ["--keep-backups", Decimal(input.keepBackups)] else [];
    if input.keepBackups > 0 {
      KeepIsRead(input.keepBackups, acc);
    }
    if input.skipTests {
      assert Options(input)[1..] == keep;
    } else {
      assert Options(input) == keep;
    }
  }

  /** Every accepted request survives the command line: the script recovers the
      action, the service, the processes in order, and the number of backups, for
      which zero means the default. */
  lemma ArgumentRoundTrip(action: string, input: Input)
    requires ProcessAction(action) && ValidDeployment(input)
    ensures Parse(BuildArgs(action, input))
         == Parsed(ScriptArgs(action, input.service, input.processes,
                              if input.keepBackups == 0 then DEFAULT_KEEP else input.keepBackups))
  {
    var args := BuildArgs(action, input);
    assert args[1..][1..] == input.processes + Options(input);
    var acc := ScriptArgs(action, input.service, [], DEFAULT_KEEP);
    SelectorsAreCollected(input.processes, Options(input), acc);
    assert [] + input.processes == input.processes;
    OptionsAreRead(input, acc.(selectors := input.processes));
  }

  lemma {:induction false} OptionsKeepAction(args: seq<string>, acc: ScriptArgs)
    ensures ParseOptions(args, acc).Parsed? ==>
        ParseOptions(args, acc).args.action == acc.action && ParseOptions(args, acc).args.service == acc.service
    decreases |args|
  {
    if args != [] {
      if args[0] == "--skip-tests" {
        OptionsKeepAction(args[1..], acc);
      } else if args[0] == "--keep-backups" {
        if |args| >= 2 && PositiveNumber(args[1]) {
          OptionsKeepAction(args[2..], acc.(keep := Value(args[1])));
        }
      } else {
        OptionsKeepAction(args[1..], acc.(selectors := acc.selectors + [args[0]]));
      }
    }
  }

  /** The script never runs with an action it does not know. */
  lemma ActionIsKnown(args: seq<string>)
    requires Parse(args).Parsed?
    ensures var action := Parse(args).args.action;
      action == "list" || action == "processes" || ProcessAction(action)
  {
    if args[0] != "list" {
      var named := args[0] == "processes" || ProcessAction(args[0]);
      var rest := if named then args[1..] else args;
      OptionsKeepAction(rest[1..], ScriptArgs(if named then args[0] else "deploy", rest[0], [], DEFAULT_KEEP));
    }
  }

  /* map_selector */

  function Guarded(ok: bool, s: string): Option<string> {
    if ok then Some(s) else None
  }

  /** None stands for dying. */
  function MapSelector(service: string, s: string): Option<string> {
    if service == PARTYSTAR then
      if s == "http" then Some("go.ps_http")
      else if s == "rpc" then Some("go.ps_rpc")
      else if HasPrefix(s, "cmd.") then Guarded(PlainName(s[4..]), "go.ps_cmd." + s[4..])
      else if s == "go.ps_http" || s == "go.ps_rpc" then Some(s)
      else if HasPrefix(s, "go.ps_cmd.") then Guarded(PlainName(s[10..]), "go.ps_cmd." + s[10..])
      else None
    else if service == ROOM then
      if s == "http" then Some("room.http")
      else if s == "rpc" then Some("room.rpc")
      else if HasPrefix(s, "cmd.") then Guarded(DottedName(s[4..]), "room.cmd." + s[4..])
      else if s == "room.http" || s == "room.rpc" || HasPrefix(s, "room.cmd.") then
        Guarded(DottedName(s[5..]), "room." + s[5..])
      else None
    else None
  }

  /** The names registered_service_processes keeps for a service. */
  predicate InNamespace(service: string, p: string) {
    if service == PARTYSTAR then p == "go.ps_http" || p == "go.ps_rpc" || HasPrefix(p, "go.ps_cmd.")
    else if service == ROOM then p == "room.http" || p == "room.rpc" || HasPrefix(p, "room.cmd.")
    else false
  }

  lemma MappedIntoNamespace(service: string, s: string)
    requires MapSelector(service, s).Some?
    ensures InNamespace(service, MapSelector(service, s).value)
  {
    var m := MapSelector(service, s).value;
    if HasPrefix(s, "cmd.") {
      var stem := if service == PARTYSTAR then "go.ps_cmd." else "room.cmd.";
      assert (stem + s[4..])[..|stem|] == stem;
    } else if s != "http" && s != "rpc" {
      assert m == s;
    }
  }

  /** What the service's own process names start with. */
  function OwnPrefix(service: string): string {
    if service == PARTYSTAR then "go.ps_" else "room."
  }

  /** A selector is mapped to itself when it is a full process name, and
      otherwise gets the service's prefix. */
  lemma MapAddsPrefix(service: string, s: string)
    requires MapSelector(service, s).Some?
    ensures MapSelector(service, s) == Some(if InNamespace(service, s) then s else OwnPrefix(service) + s)
  {
    if service == PARTYSTAR {
      PartystarAddsPrefix(s);
    } else {
      RoomAddsPrefix(s);
    }
  }

  lemma PartystarAddsPrefix(s: string)
    requires MapSelector(PARTYSTAR, s).Some?
    ensures MapSelector(PARTYSTAR, s) == Some(if InNamespace(PARTYSTAR, s) then s else "go.ps_" + s)
  {
    if s == "http" || s == "rpc" {
      assert "go.ps_" + "http" == "go.ps_http" && "go.ps_" + "rpc" == "go.ps_rpc";
    } else if HasPrefix(s, "cmd.") {
      assert s == "cmd." + s[4..];
      assert "go.ps_" + ("cmd." + s[4..]) == "go.ps_cmd." + s[4..];
      HeadOfPrefix(s, "cmd.");
      NoPrefix(s, "go.ps_cmd.");
    } else if HasPrefix(s, "go.ps_cmd.") {
      assert s == "go.ps_cmd." + s[10..];
    }
  }

  lemma RoomAddsPrefix(s: string)
    requires MapSelector(ROOM, s).Some?
    ensures MapSelector(ROOM, s) == Some(if InNamespace(ROOM, s) then s else "room." + s)
  {
    if s == "http" || s == "rpc" {
      assert "room." + "http" == "room.http" && "room." + "rpc" == "room.rpc";
    } else if HasPrefix(s, "cmd.") {
      assert s == "cmd." + s[4..];
      assert "room." + ("cmd." + s[4..]) == "room.cmd." + s[4..];
      HeadOfPrefix(s, "cmd.");
      NoPrefix(s, "room.cmd.");
    } else if HasPrefix(s, "room.cmd.") {
      ShorterPrefix(s, "room.", "cmd.");
      assert s == "room." + s[5..];
    } else {
      assert "room." + s[5..] == s;
    }
  }

  lemma HeadOfPrefix(s: string, p: string)
    requires HasPrefix(s, p) && p != ""
    ensures s[0] == p[0]
  {
    assert s[..|p|][0] == s[0];
  }

  lemma NoPrefix(s: string, p: string)
    requires s != "" && p != "" && s[0] != p[0]
    ensures !HasPrefix(s, p)
  {
    if |p| <= |s| {
      assert s[..|p|][0] == s[0];
    }
  }

  lemma SumHasPrefix(p: string, t: string)
    ensures HasPrefix(p + t, p) && (p + t)[|p|..] == t
  {
  }

  lemma PartystarCommandIsFixed(t: string)
    requires PlainName(t)
    ensures MapSelector(PARTYSTAR, "go.ps_cmd." + t) == Some("go.ps_cmd." + t)
  {
    var m := "go.ps_cmd." + t;
    SumHasPrefix("go.ps_cmd.", t);
    assert m[0] == 'g' && |m| > 10;
    NoPrefix(m, "cmd.");
  }

  lemma RoomCommandIsFixed(m: string)
    requires HasPrefix(m, "room.cmd.") && DottedName(m[5..])
    ensures MapSelector(ROOM, m) == Some(m)
  {
    HeadOfPrefix(m, "room.cmd.");
    NoPrefix(m, "cmd.");
    ShorterPrefix(m, "room.", "cmd.");
    assert "room." + m[5..] == m;
  }

  /** Mapping a mapped name again changes nothing. */
  lemma MapIsIdempotent(service: string, s: string)
    requires MapSelector(service, s).Some?
    ensures MapSelector(service, MapSelector(service, s).value) == MapSelector(service, s)
  {
    var m := MapSelector(service, s).value;
    if s == "http" || s == "rpc" {
      assert m[0] == if service == PARTYSTAR then 'g' else 'r';
      NoPrefix(m, "cmd.");
      assert "room.http"[5..] == "http" && "room.rpc"[5..] == "rpc";
      assert DottedName("http") && DottedName("rpc");
      assert "room." + "http" == "room.http" && "room." + "rpc" == "room.rpc";
    } else if service == PARTYSTAR {
      if HasPrefix(s, "cmd.") {
        PartystarCommandIsFixed(s[4..]);
      } else if s != "go.ps_http" && s != "go.ps_rpc" {
        PartystarCommandIsFixed(s[10..]);
      }
    } else if HasPrefix(s, "cmd.") {
      SumHasPrefix("room.cmd.", s[4..]);
      assert m[5..] == "cmd." + s[4..];
      RoomCommandIsFixed(m);
    } else if s != "room.http" && s != "room.rpc" {
      ShorterPrefix(s, "room.", "cmd.");
      assert m == s;
      RoomCommandIsFixed(s);
    }
  }

  lemma NamespacesAreDisjoint(p: string)
    ensures !(InNamespace(PARTYSTAR, p) && InNamespace(ROOM, p))
  {
    if HasPrefix(p, "go.ps_cmd.") {
      HeadOfPrefix(p, "go.ps_cmd.");
    }
    if InNamespace(PARTYSTAR, p) {
      assert p[0] == 'g';
    }
    if InNamespace(ROOM, p) {
      assert p[0] == 'r' by {
        if HasPrefix(p, "room.cmd.") {
          HeadOfPrefix(p, "room.cmd.");
        }
      }
    }
  }

  /** Selectors of the other service, and dotted commands of Partystar. */
  predicate Foreign(service: string, s: string) {
    if service == PARTYSTAR then HasPrefix(s, "room.") || (HasPrefix(s, "cmd.") && '.' in s[4..])
    else HasPrefix(s, "go.")
  }

  lemma ShorterPrefix(s: string, p: string, q: string)
    requires HasPrefix(s, p + q)
    ensures HasPrefix(s, p) && s[|p|..|p| + |q|] == q
  {
    assert s[..|p|] == (p + q)[..|p|];
    assert s[|p|..|p| + |q|] == s[..|p + q|][|p|..];
  }

  /** The two sides do not accept the same selectors: exactly the foreign ones
      pass the Go validation and make the script die. */
  lemma AcceptedButUnmappable(service: string, s: string)
    requires ValidService(service) && ValidSelector(s) && s != "all"
    ensures MapSelector(service, s).None? <==> Foreign(service, s)
  {
    SelectorShape(s);
    if service == ROOM && HasPrefix(s, "room.cmd.") {
      ShorterPrefix(s, "room.", "cmd.");
      assert s[5..] == "cmd." + s[9..];
    }
  }

  /** The first character tells the alternatives of the pattern apart. */
  lemma SelectorShape(s: string)
    requires ValidSelector(s) && s != "all"
    ensures s[0] == 'h' ==> s == "http"
    ensures s[0] == 'r' && !HasPrefix(s, "room.") ==> s == "rpc"
    ensures HasPrefix(s, "room.") ==> s == "room.http" || s == "room.rpc" || DottedAfter("room.cmd.", s)
    ensures s[0] == 'g' ==> s == "go.ps_http" || s == "go.ps_rpc" || PlainAfter("go.ps_cmd.", s)
    ensures s[0] == 'c' ==> DottedAfter("cmd.", s)
    ensures s[0] in "hrgc"
    ensures s[0] == 'g' <==> HasPrefix(s, "go.")
    ensures s[0] == 'c' <==> HasPrefix(s, "cmd.")
    ensures s[0] == 'g' ==> !HasPrefix(s, "room.")
    ensures s[0] == 'h' ==> !HasPrefix(s, "room.")
  {
    if HasPrefix(s, "go.ps_cmd.") { ShorterPrefix(s, "go.", "ps_cmd."); }
    if HasPrefix(s, "room.cmd.") { ShorterPrefix(s, "room.", "cmd."); }
    if HasPrefix(s, "room.") { assert s[..5][0] == s[0]; }
    if HasPrefix(s, "go.") { assert s[..3][0] == s[0]; }
    if HasPrefix(s, "cmd.") { assert s[..4][0] == s[0]; }
  }

  /* resolve_processes */

  /** Byte order, as `sort` uses it in the C locale. */
  predicate Leq(a: string, b: string) {
    a == "" || (b != "" && (a[0] < b[0] || (a[0] == b[0] && Leq(a[1..], b[1..]))))
  }

  lemma {:induction false} LeqTotal(a: string, b: string)
    ensures Leq(a, b) || Leq(b, a)
    ensures Leq(a, b) && Leq(b, a) ==> a == b
  {
    if a != "" && b != "" && a[0] == b[0] {
      LeqTotal(a[1..], b[1..]);
      assert a == [a[0]] + a[1..] && b == [b[0]] + b[1..];
    }
  }

  lemma {:induction false} LeqTransitive(a: string, b: string, c: string)
    requires Leq(a, b) && Leq(b, c)
    ensures Leq(a, c)
  {
    if a != "" && a[0] == b[0] && b[0] == c[0] {
      LeqTransitive(a[1..], b[1..], c[1..]);
    }
  }

  predicate Sorted(s: seq<string>) {
    forall i, j :: 0 <= i < j < |s| ==> Leq(s[i], s[j])
  }

  predicate StrictlySorted(s: seq<string>) {
    forall i, j :: 0 <= i < j < |s| ==> Leq(s[i], s[j]) && s[i] != s[j]
  }

  /** Sorted and without duplicates, a list is determined by its elements. */
  lemma {:induction false} SortedListIsUnique(a: seq<string>, b: seq<string>)
    requires StrictlySorted(a) && StrictlySorted(b)
    requires forall x :: x in a <==> x in b
    ensures a == b
  {
    assert |b| > 0 ==> b[0] in b;
    if a != [] {
      assert a[0] in b;
      SameHead(a, b);
      assert a == [a[0]] + a[1..] && b == [b[0]] + b[1..];
      forall x ensures x in a[1..] <==> x in b[1..] {
        TailElements(a, x);
        TailElements(b, x);
      }
      SortedListIsUnique(a[1..], b[1..]);
    }
  }

  lemma SameHead(a: seq<string>, b: seq<string>)
    requires StrictlySorted(a) && StrictlySorted(b) && a != [] && b != []
    requires a[0] in b && b[0] in a
    ensures a[0] == b[0]
  {
    LeqTotal(a[0], b[0]);
  }

  lemma TailElements(a: seq<string>, x: string)
    requires StrictlySorted(a) && a != []
    ensures x in a[1..] <==> x in a && x != a[0]
  {
    if x in a && x != a[0] {
      var i :| 0 <= i < |a| && a[i] == x;
      assert a[1..][i - 1] == x;
    }
  }

  lemma InsertKeepsSorted(s: seq<string>, k: nat, x: string)
    requires Sorted(s) && k <= |s|
    requires k > 0 ==> Leq(s[k - 1], x)
    requires k < |s| ==> Leq(x, s[k])
    ensures Sorted(s[..k] + [x] + s[k..])
  {
    var r := s[..k] + [x] + s[k..];
    forall i, j | 0 <= i < j < |r| ensures Leq(r[i], r[j]) {
      if j == k {
        if i < k - 1 { LeqTransitive(s[i], s[k - 1], x); }
      } else if i == k {
        if j - 1 > k { LeqTransitive(x, s[k], s[j - 1]); }
      } else if i < k && j > k {
        assert r[j] == s[j - 1];
      }
    }
  }

  /** The external `sort`. */
  method SortLines(lines: seq<string>) returns (r: seq<string>)
    ensures Sorted(r) && forall x :: x in r <==> x in lines
  {
    r := [];
    for i := 0 to |lines|
      invariant Sorted(r) && forall x :: x in r <==> x in lines[..i]
    {
      var x, k := lines[i], 0;
      while k < |r| && Leq(r[k], x)
        invariant k <= |r| && (k > 0 ==> Leq(r[k - 1], x))
      {
        k := k + 1;
      }
      if k < |r| {
        LeqTotal(r[k], x);
      }
      InsertKeepsSorted(r, k, x);
      ghost var before := r;
      r := r[..k] + [x] + r[k..];
      assert before == before[..k] + before[k..];
      assert lines[..i + 1] == lines[..i] + [x];
    }
    assert lines[..|lines|] == lines;
  }

  /** The reading loop that drops empty lines and duplicates. */
  method Deduplicate(sorted: seq<string>) returns (r: seq<string>)
    requires Sorted(sorted)
    ensures StrictlySorted(r) && forall x :: x in r <==> x in sorted && x != ""
  {
    r := [];
    for i := 0 to |sorted|
      invariant StrictlySorted(r) && forall x :: x in r <==> x in sorted[..i] && x != ""
    {
      var process := sorted[i];
      assert sorted[..i + 1] == sorted[..i] + [process];
      if process != "" {
        var duplicate := false;
        for k := 0 to |r|
          invariant duplicate <==> process in r[..k]
        {
          assert r[..k + 1] == r[..k] + [r[k]];
          if r[k] == process {
            duplicate := true;
            assert process in r[..k + 1];
            assert process in r;
            break;
          }
        }
        assert duplicate <==> process in r by { assert r[..|r|] == r; }
        if !duplicate {
          forall k | 0 <= k < |r| ensures Leq(r[k], process) && r[k] != process {
            assert r[k] in r;
            assert r[k] in sorted[..i];
            var j :| 0 <= j < i && sorted[j] == r[k];
          }
          r := r + [process];
        }
      }
    }
    assert sorted[..|sorted|] == sorted;
  }

  /** What map_selector says about a selector that it cannot map. */
  function SelectorProblem(service: string, s: string): string {
    if service == PARTYSTAR && HasPrefix(s, "cmd.") then "invalid CMD process selector: " + s
    else if service == PARTYSTAR && HasPrefix(s, "go.ps_cmd.") then "invalid Supervisor process name: " + s
    else if service == ROOM && HasPrefix(s, "cmd.") then "invalid room CMD process selector: " + s
    else if service == ROOM && (s == "room.http" || s == "room.rpc" || HasPrefix(s, "room.cmd.")) then
      "invalid room Supervisor process name: " + s
    else "unsupported process selector for " + service + ": " + s
  }

  /** The first selector that cannot be mapped. */
  predicate FirstUnmappable(service: string, selectors: seq<string>, i: nat) {
    i < |selectors| && !Mappable(service, selectors[i]) && forall j :: 0 <= j < i ==> Mappable(service, selectors[j])
  }

  /** What one selector stands for, given the names Supervisor reports. */
  ghost predicate StandsFor(service: string, names: seq<string>, selector: string, p: string) {
    if selector == "all" then p in names && InNamespace(service, p)
    else MapSelector(service, selector) == Some(p)
  }

  ghost predicate Wanted(service: string, names: seq<string>, selectors: seq<string>, p: string) {
    exists s :: s in selectors && StandsFor(service, names, s, p)
  }

  predicate Mappable(service: string, s: string) {
    s == "all" || MapSelector(service, s).Some?
  }

  /** registered_service_processes */
  method Registered(service: string, names: seq<string>) returns (r: seq<string>)
    ensures forall p :: p in r <==> p in names && InNamespace(service, p)
  {
    r := [];
    for i := 0 to |names|
      invariant forall p :: p in r <==> p in names[..i] && InNamespace(service, p)
    {
      assert names[..i + 1] == names[..i] + [names[i]];
      if InNamespace(service, names[i]) {
        r := r + [names[i]];
      }
    }
    assert names[..|names|] == names;
  }

  lemma NamespaceNotEmpty(service: string, p: string)
    requires InNamespace(service, p)
    ensures p != ""
  {
  }

  /** resolve_processes: it dies on a selector it cannot map or when nothing is
      left, and otherwise yields the wanted processes sorted and without
      duplicates. */
  method ResolveProcesses(service: string, selectors: seq<string>, names: seq<string>)
    returns (r: Option<seq<string>>, problem: string)
    ensures r.Some? ==> forall s :: s in selectors ==> Mappable(service, s)
    ensures r.Some? ==> StrictlySorted(r.value) && r.value != []
    ensures r.Some? ==> forall p :: p in r.value <==> Wanted(service, names, selectors, p)
    ensures r.None? ==>
        (exists i: nat :: FirstUnmappable(service, selectors, i) && problem == SelectorProblem(service, selectors[i]))
        || ((forall p :: !Wanted(service, names, selectors, p)) && problem == "no process resolved")
  {
    problem := "";
    var resolved: seq<string> := [];
    for i := 0 to |selectors|
      invariant forall s :: s in selectors[..i] ==> Mappable(service, s)
      invariant forall p :: p in resolved <==> Wanted(service, names, selectors[..i], p)
    {
      var selector := selectors[i];
      assert selectors[..i + 1] == selectors[..i] + [selector];
      ghost var before := resolved;
      if selector == "all" {
        var registered := Registered(service, names);
        resolved := resolved + registered;
      } else {
        var process := MapSelector(service, selector);
        if process.None? {
          assert forall j :: 0 <= j < i ==> selectors[j] in selectors[..i];
          assert FirstUnmappable(service, selectors, i);
          return None, SelectorProblem(service, selector);
        }
        resolved := resolved + [process.value];
      }
      forall p ensures p in resolved <==> Wanted(service, names, selectors[..i + 1], p) {
        WantedOneMore(service, names, selectors[..i], selector, p);
      }
    }
    assert selectors[..|selectors|] == selectors;
    if |resolved| == 0 {
      return None, "no process resolved";
    }
    var sorted := SortLines(resolved);
    var processes := Deduplicate(sorted);
    forall p | Wanted(service, names, selectors, p) ensures p != "" {
      WantedInNamespace(service, names, selectors, p);
      NamespaceNotEmpty(service, p);
    }
    assert resolved[0] in processes;
    r := Some(processes);
  }

  lemma WantedOneMore(service: string, names: seq<string>, selectors: seq<string>, s: string, p: string)
    ensures Wanted(service, names, selectors + [s], p)
       <==> Wanted(service, names, selectors, p) || StandsFor(service, names, s, p)
  {
    if Wanted(service, names, selectors, p) {
      var t :| t in selectors && StandsFor(service, names, t, p);
      assert t in selectors + [s];
    }
    if StandsFor(service, names, s, p) {
      assert s in selectors + [s];
    }
  }

  /** Whatever is resolved belongs to the service. */
  lemma WantedInNamespace(service: string, names: seq<string>, selectors: seq<string>, p: string)
    requires Wanted(service, names, selectors, p)
    ensures InNamespace(service, p)
  {
    var s :| s in selectors && StandsFor(service, names, s, p);
    if s != "all" {
      MappedIntoNamespace(service, s);
    }
  }
}
