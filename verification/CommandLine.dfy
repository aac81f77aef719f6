/** The command lines that scripts/deploy-server.sh accepts, as a grammar: how they are
    written, against how the script's loop reads them. */
module CommandLine {
  import opened Text
  import opened Selectors
  import opened DeployArguments

  /** What may follow the service, in any order. */
  datatype Item = SkipTests | Keep(number: string) | Selector(name: string)

  predicate Proper(item: Item) {
    match item
    case SkipTests => true
    case Keep(number) => number != "" && AllDigits(number) && number[0] != '0'
    case Selector(name) => name == "" || name[0] != '-'
  }

  predicate WellFormed(items: seq<Item>) {
    forall i :: 0 <= i < |items| ==> Proper(items[i])
  }

  function Words(item: Item): seq<string> {
    match item
    case SkipTests => ["--skip-tests"]
    case Keep(number) => ["--keep-backups", number]
    case Selector(name) => [name]
  }

  function Written(items: seq<Item>): seq<string> {
    if items == [] then [] else Words(items[0]) + Written(items[1..])
  }

  function SelectorsOf(items: seq<Item>): seq<string> {
    if items == [] then []
    else if items[0].Selector? then [items[0].name] + SelectorsOf(items[1..])
    else SelectorsOf(items[1..])
  }

  /** The last number of backups, or the default. */
  function KeepOf(items: seq<Item>, default: nat): nat
    requires WellFormed(items)
  {
    if items == [] then default
    else if items[0].Keep? then KeepOf(items[1..], Value(items[0].number))
    else KeepOf(items[1..], default)
  }

  /* Reading what was written */

  lemma DashIsPrefix(s: string)
    ensures HasPrefix(s, "-") <==> s != "" && s[0] == '-'
  {
    if s != "" {
      assert s[..1] == [s[0]];
    }
  }

  /** What one item adds. */
  function With(item: Item, acc: ScriptArgs): ScriptArgs
    requires Proper(item)
  {
    match item
    case SkipTests => acc
    case Keep(number) => acc.(keep := Value(number))
    case Selector(name) => acc.(selectors := acc.selectors + [name])
  }

  lemma OneItem(item: Item, rest: seq<string>, acc: ScriptArgs)
    requires Proper(item)
    ensures ParseOptions(Words(item) + rest, acc) == ParseOptions(rest, With(item, acc))
  {
    var args := Words(item) + rest;
    assert args[|Words(item)|..] == rest;
    match item
    case SkipTests =>
    case Keep(number) => assert args[0] == "--keep-backups" && args[1] == number;
    case Selector(name) => DashIsPrefix(name);
  }

  lemma Regroup(a: seq<string>, b: seq<string>, c: seq<string>)
    ensures a + b + c == a + (b + c)
  {
  }

  /** The loop reads what was written, whatever follows. */
  lemma {:induction false} ItemsAreRead(items: seq<Item>, rest: seq<string>, acc: ScriptArgs)
    requires WellFormed(items)
    ensures ParseOptions(Written(items) + rest, acc)
         == ParseOptions(rest, acc.(selectors := acc.selectors + SelectorsOf(items), keep := KeepOf(items, acc.keep)))
    decreases |items|
  {
    if items == [] {
      assert Written(items) + rest == rest && acc.selectors + [] == acc.selectors;
    } else {
      var next := With(items[0], acc);
      OneItem(items[0], Written(items[1..]) + rest, acc);
      ItemsAreRead(items[1..], rest, next);
      Regroup(Words(items[0]), Written(items[1..]), rest);
      if items[0].Selector? {
        Regroup(acc.selectors, [items[0].name], SelectorsOf(items[1..]));
      }
    }
  }

  /** Everything it accepts was written that way. */
  lemma {:induction false} ReadIsWritten(args: seq<string>, acc: ScriptArgs) returns (items: seq<Item>)
    requires ParseOptions(args, acc).Parsed?
    ensures WellFormed(items) && args == Written(items)
    decreases |args|
  {
    if args == [] {
      items := [];
    } else {
      var item :=
        if args[0] == "--skip-tests" then SkipTests
        else if args[0] == "--keep-backups" then Keep(args[1])
        else Selector(args[0]);
      DashIsPrefix(args[0]);
      var n := |Words(item)|;
      assert args == Words(item) + args[n..];
      OneItem(item, args[n..], acc);
      var more := ReadIsWritten(args[n..], With(item, acc));
      items := [item] + more;
      assert items[1..] == more;
    }
  }

  /* Whole command lines */

  predicate ActionWord(word: string) {
    word == "processes" || word == "status" || word == "restart" || word == "plan" || word == "deploy"
  }

  /** The words in front of the items: an action and a service, or a service alone, which
      means deploying it. */
  predicate IsHead(head: seq<string>, action: string, service: string) {
    || (ActionWord(action) && head == [action, service])
    || (action == "deploy" && head == [service] && !ActionWord(service)
        && service != "list" && service != "-h" && service != "--help")
  }

  ghost predicate IsLine(args: seq<string>, a: ScriptArgs, head: seq<string>, items: seq<Item>) {
    && IsHead(head, a.action, a.service) && WellFormed(items) && args == head + Written(items)
    && a.selectors == SelectorsOf(items) && a.keep == KeepOf(items, 3)
    && (a.action == "processes" || a.selectors != [])
  }

  /** Behind such a head everything is up to the option loop. */
  lemma HeadIsRead(head: seq<string>, action: string, service: string, rest: seq<string>)
    requires IsHead(head, action, service)
    ensures Parse(head + rest) == ParseOptions(rest, ScriptArgs(action, service, [], 3))
  {
    var args := head + rest;
    if |head| == 2 {
      assert args[0] == action && args[1..] == [service] + rest && args[1..][1..] == rest;
    } else {
      assert args[0] == service && args[1..] == rest;
    }
  }

  /** What is accepted, and as what, exactly. */
  lemma CommandLineExactly(args: seq<string>, a: ScriptArgs)
    ensures Parse(args) == Parsed(a) <==>
        (args == ["list"] && a == ScriptArgs("list", "", [], 3))
        || exists head, items :: IsLine(args, a, head, items)
  {
    if Parse(args) == Parsed(a) && args[0] != "list" {
      var head, items := LineOf(args, a);
    }
    forall head, items | IsLine(args, a, head, items) ensures Parse(args) == Parsed(a) {
      LineIsRead(args, a, head, items);
    }
  }

  lemma LineIsRead(args: seq<string>, a: ScriptArgs, head: seq<string>, items: seq<Item>)
    requires IsLine(args, a, head, items)
    ensures Parse(args) == Parsed(a)
  {
    var acc := ScriptArgs(a.action, a.service, [], 3);
    HeadIsRead(head, a.action, a.service, Written(items));
    ItemsAreRead(items, [], acc);
    assert Written(items) + [] == Written(items) && [] + SelectorsOf(items) == SelectorsOf(items);
  }

  lemma LineOf(args: seq<string>, a: ScriptArgs) returns (head: seq<string>, items: seq<Item>)
    requires Parse(args) == Parsed(a) && args[0] != "list"
    ensures IsLine(args, a, head, items)
  {
    var n := if ActionWord(args[0]) then 2 else 1;
    head := args[..n];
    var action, service := if n == 2 then args[0] else "deploy", args[n - 1];
    assert args == head + args[n..];
    HeadIsRead(head, action, service, args[n..]);
    var acc := ScriptArgs(action, service, [], 3);
    items := ReadIsWritten(args[n..], acc);
    ItemsAreRead(items, [], acc);
    assert Written(items) + [] == Written(items) && [] + SelectorsOf(items) == SelectorsOf(items);
  }

  /** What is refused: the first word behind a readable line that cannot be read decides. */
  lemma FirstBadWord(head: seq<string>, action: string, service: string, items: seq<Item>, rest: seq<string>)
    requires IsHead(head, action, service) && WellFormed(items)
    ensures rest == ["--keep-backups"] ==>
        Parse(head + (Written(items) + rest)) == Die("--keep-backups requires a value")
    ensures |rest| >= 2 && rest[0] == "--keep-backups" && !PositiveNumber(rest[1]) ==>
        Parse(head + (Written(items) + rest)) == Die("--keep-backups must be a positive integer")
    ensures rest != [] && rest[0] in ["-h", "--help"] ==> Parse(head + (Written(items) + rest)) == Usage(0)
    ensures rest != [] && HasPrefix(rest[0], "-") && rest[0] !in ["-h", "--help", "--skip-tests", "--keep-backups"] ==>
        Parse(head + (Written(items) + rest)) == Die("unknown option: " + rest[0])
    ensures rest == [] && SelectorsOf(items) == [] && action != "processes" ==>
        Parse(head + (Written(items) + rest)) == Die(action + " requires at least one process")
  {
    HeadIsRead(head, action, service, Written(items) + rest);
    ItemsAreRead(items, rest, ScriptArgs(action, service, [], 3));
  }

  /** Command lines without a head. */
  lemma NoHead(rest: seq<string>, action: string)
    ensures Parse([]) == Usage(64)
    ensures Parse(["-h"] + rest) == Usage(0) && Parse(["--help"] + rest) == Usage(0)
    ensures rest != [] ==> Parse(["list"] + rest) == Die("list does not accept additional arguments")
    ensures ActionWord(action) ==> Parse([action]) == Die(action + " requires a service")
  {
  }

  /** A request's flag for skipping tests is on its command line. */
  lemma SkipTestsIsPassedOn(action: string, input: Input)
    requires ProcessAction(action) && ValidDeployment(input)
    ensures "--skip-tests" in BuildArgs(action, input) <==> input.skipTests
  {
    forall i | 0 <= i < |input.processes| ensures input.processes[i] != "--skip-tests" {
      SelectorIsNoOption(input.processes[i]);
    }
    assert action[0] != '-' && input.service[0] == 'p';
    if input.keepBackups > 0 {
      assert IsDigit(Decimal(input.keepBackups)[0]);
    }
    if input.skipTests {
      assert "--skip-tests" in Options(input);
    }
  }

  /* Selectors */

  /** The selectors that the script maps, for each service. */
  lemma PartystarMaps(s: string)
    ensures MapSelector("psl-be-partystar", s).Some? <==>
        s in ["http", "rpc", "go.ps_http", "go.ps_rpc"]
        || exists t :: PlainName(t) && (s == "cmd." + t || s == "go.ps_cmd." + t)
  {
    if HasPrefix(s, "cmd.") {
      assert s == "cmd." + s[4..];
    }
    if HasPrefix(s, "go.ps_cmd.") {
      HeadOfPrefix(s, "go.ps_cmd.");
      NoPrefix(s, "cmd.");
      assert s == "go.ps_cmd." + s[10..];
    }
    forall t | PlainName(t) && (s == "cmd." + t || s == "go.ps_cmd." + t) ensures MapSelector(PARTYSTAR, s).Some? {
      if s == "cmd." + t {
        SumHasPrefix("cmd.", t);
      } else {
        PartystarCommandIsFixed(t);
      }
    }
  }

  lemma RoomMaps(s: string)
    ensures MapSelector("psl-be-room", s).Some? <==>
        s in ["http", "rpc", "room.http", "room.rpc", "room.cmd."]
        || exists t :: DottedName(t) && (s == "cmd." + t || s == "room.cmd." + t)
  {
    if MapSelector("psl-be-room", s).Some? && s !in ["http", "rpc", "room.http", "room.rpc", "room.cmd."] {
      var t := RoomName(s);
    }
    if s in ["http", "rpc", "room.http", "room.rpc", "room.cmd."] {
      RoomFullNames();
    }
    forall t | DottedName(t) && (s == "cmd." + t || s == "room.cmd." + t)
      ensures MapSelector("psl-be-room", s).Some?
    {
      RoomCommand(t);
    }
  }

  lemma RoomName(s: string) returns (t: string)
    requires MapSelector(ROOM, s).Some? && s !in ["http", "rpc", "room.http", "room.rpc", "room.cmd."]
    ensures DottedName(t) && (s == "cmd." + t || s == "room.cmd." + t)
  {
    if HasPrefix(s, "cmd.") {
      t := s[4..];
      assert s == "cmd." + t;
    } else {
      t := s[9..];
      ShorterPrefix(s, "room.", "cmd.");
      assert s == s[..9] + t && s[5..] == s[5..9] + t;
      assert s == "room.cmd." + t && "room.cmd." + "" == "room.cmd.";
      assert forall i :: 0 <= i < |t| ==> t[i] == s[5..][i + 4];
    }
  }

  lemma RoomFullNames()
    ensures forall s :: s in ["http", "rpc", "room.http", "room.rpc", "room.cmd."] ==> MapSelector(ROOM, s).Some?
  {
    assert |ROOM| != |PARTYSTAR|;
    RoomCommandIsFixed("room.cmd.") by {
      assert "room.cmd."[5..] == "cmd." && "room.cmd."[..9] == "room.cmd.";
    }
    assert "room.http"[5..] == "http" && "room.rpc"[5..] == "rpc";
    NoPrefix("room.http", "cmd.");
    NoPrefix("room.rpc", "cmd.");
  }

  lemma RoomCommand(t: string)
    requires DottedName(t)
    ensures MapSelector(ROOM, "cmd." + t).Some? && MapSelector(ROOM, "room.cmd." + t).Some?
  {
    assert |ROOM| != |PARTYSTAR|;
    SumHasPrefix("cmd.", t);
    SumHasPrefix("room.cmd.", t);
    assert ("room.cmd." + t)[5..] == "cmd." + t;
    RoomCommandIsFixed("room.cmd." + t);
  }

  /** The service accepts exactly the selectors that the script maps for one of its
      services, and "all", but for one that the script alone accepts. */
  lemma SelectorsOfBothSides(s: string)
    ensures ValidSelector(s) <==>
        s == "all" || MapSelector(PARTYSTAR, s).Some? || (MapSelector(ROOM, s).Some? && s != "room.cmd.")
  {
    PartystarMaps(s);
    RoomMaps(s);
    DottedMeans("cmd.", s);
    DottedMeans("room.cmd.", s);
    PlainMeans("go.ps_cmd.", s);
    assert forall t :: PlainName(t) ==> DottedName(t);
    FixedSelectors(s);
  }

  lemma FixedSelectors(s: string)
    ensures s in ["http", "rpc", "go.ps_http", "go.ps_rpc"] <==>
        s == "http" || s == "rpc" || s == "go.ps_http" || s == "go.ps_rpc"
    ensures s in ["http", "rpc", "room.http", "room.rpc", "room.cmd."] <==>
        s == "http" || s == "rpc" || s == "room.http" || s == "room.rpc" || s == "room.cmd."
    ensures s == "room.http" || s == "room.rpc" || s == "http" || s == "rpc" ==> s != "room.cmd."
    ensures DottedAfter("room.cmd.", s) || DottedAfter("cmd.", s) ==> s != "room.cmd."
  {
    assert "room.cmd."[5] == 'c' && "room.http"[5] == 'h' && "room.rpc"[5] == 'r' && "room.cmd."[0] == 'r';
    if HasPrefix(s, "cmd.") {
      HeadOfPrefix(s, "cmd.");
    }
    if HasPrefix(s, "room.cmd.") && s == "room.cmd." {
      assert s[9..] == "";
    }
  }

  lemma DottedMeans(p: string, s: string)
    ensures DottedAfter(p, s) <==> exists t :: DottedName(t) && s == p + t
  {
    if DottedAfter(p, s) {
      assert s == p + s[|p|..];
    }
    forall t | DottedName(t) && s == p + t ensures DottedAfter(p, s) {
      SumHasPrefix(p, t);
    }
  }

  lemma PlainMeans(p: string, s: string)
    ensures PlainAfter(p, s) <==> exists t :: PlainName(t) && s == p + t
  {
    if PlainAfter(p, s) {
      assert s == p + s[|p|..];
    }
    forall t | PlainName(t) && s == p + t ensures PlainAfter(p, s) {
      SumHasPrefix(p, t);
    }
  }

  /** What the script says about the others. */
  lemma SelectorProblems(t: string)
    ensures SelectorProblem("psl-be-partystar", "cmd." + t) == "invalid CMD process selector: " + ("cmd." + t)
    ensures SelectorProblem("psl-be-partystar", "go.ps_cmd." + t)
         == "invalid Supervisor process name: " + ("go.ps_cmd." + t)
    ensures SelectorProblem("psl-be-room", "cmd." + t) == "invalid room CMD process selector: " + ("cmd." + t)
    ensures SelectorProblem("psl-be-room", "room.cmd." + t)
         == "invalid room Supervisor process name: " + ("room.cmd." + t)
    ensures t != "" && t[0] !in "cgr" ==>
        SelectorProblem("psl-be-partystar", t) == "unsupported process selector for psl-be-partystar: " + t
        && SelectorProblem("psl-be-room", t) == "unsupported process selector for psl-be-room: " + t
  {
    assert |"psl-be-room"| != |PARTYSTAR|;
    SumHasPrefix("cmd.", t);
    SumHasPrefix("go.ps_cmd.", t);
    SumHasPrefix("room.cmd.", t);
    NoPrefix("go.ps_cmd." + t, "cmd.");
    NoPrefix("room.cmd." + t, "cmd.");
    if t != "" && t[0] !in "cgr" {
      NoPrefix(t, "cmd.");
      NoPrefix(t, "go.ps_cmd.");
      NoPrefix(t, "room.cmd.");
      assert "unsupported process selector for " + PARTYSTAR + ": "
          == "unsupported process selector for psl-be-partystar: ";
      assert "unsupported process selector for " + ROOM + ": "
          == "unsupported process selector for psl-be-room: ";
    }
  }

  /** A prefix comes first, and otherwise the first difference decides. */
  ghost predicate Precedes(a: string, b: string) {
    HasPrefix(b, a) || exists k :: DifferFirstAt(a, b, k) && a[k] < b[k]
  }

  predicate DifferFirstAt(a: string, b: string, k: int) {
    0 <= k < |a| && k < |b| && a[..k] == b[..k]
  }

  lemma {:induction false} OrderMeans(a: string, b: string)
    ensures Leq(a, b) <==> Precedes(a, b)
  {
    if a == "" {
      assert b[..0] == a;
    } else if b != "" {
      if a[0] == b[0] {
        OrderMeans(a[1..], b[1..]);
        SameFirst(a, b);
      } else {
        NoPrefix(b, a);
        assert DifferFirstAt(a, b, 0);
        LaterDifference(a, b);
      }
    }
  }

  lemma LaterDifference(a: string, b: string)
    requires a != "" && b != ""
    ensures forall k :: 0 < k && DifferFirstAt(a, b, k) ==> a[0] == b[0]
  {
    forall k | 0 < k && DifferFirstAt(a, b, k) ensures a[0] == b[0] {
      assert a[..k][0] == b[..k][0];
    }
  }

  lemma SameFirst(a: string, b: string)
    requires a != "" && b != "" && a[0] == b[0]
    ensures Precedes(a, b) <==> Precedes(a[1..], b[1..])
  {
    var c, d := a[1..], b[1..];
    forall k | DifferFirstAt(c, d, k) ensures DifferFirstAt(a, b, k + 1) {
      assert a[..k + 1] == [a[0]] + c[..k] && b[..k + 1] == [b[0]] + d[..k];
    }
    forall k | k > 0 && DifferFirstAt(a, b, k) ensures DifferFirstAt(c, d, k - 1) {
      assert c[..k - 1] == a[..k][1..] && d[..k - 1] == b[..k][1..];
    }
    if |a| <= |b| {
      assert a == [a[0]] + c && b[..|a|] == [b[0]] + d[..|c|] && d[..|c|] == b[..|a|][1..];
    }
    if exists k :: DifferFirstAt(c, d, k) && c[k] < d[k] {
      var k :| DifferFirstAt(c, d, k) && c[k] < d[k];
      assert DifferFirstAt(a, b, k + 1) && a[k + 1] < b[k + 1];
    }
  }
}
