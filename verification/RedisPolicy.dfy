/** The Redis command policy of internal/testredis/validator.go. */
module RedisPolicy {
  import opened Text

  const MAX_COMMAND: nat := 4096
  const MAX_ITEMS: int := 500

  const ARITY: map<string, (nat, nat)> := map[
    "GET" := (2, 2), "MGET" := (2, 51), "STRLEN" := (2, 2), "EXISTS" := (2, 51),
    "TYPE" := (2, 2), "TTL" := (2, 2), "PTTL" := (2, 2),
    "HGET" := (3, 3), "HMGET" := (3, 52), "HLEN" := (2, 2), "HEXISTS" := (3, 3),
    "LLEN" := (2, 2), "LINDEX" := (3, 3),
    "SCARD" := (2, 2), "SISMEMBER" := (3, 3),
    "ZCARD" := (2, 2), "ZSCORE" := (3, 3), "ZRANK" := (3, 3), "ZREVRANK" := (3, 3)]

  /** Two's complement wrap-around of a 64-bit int. */
  function Wrap(x: int): int {
    (x + MAX_INT + 1) % (2 * (MAX_INT + 1)) - (MAX_INT + 1)
  }

  /* Ranges */

  /** Bounds in order with at most 500 items, or the one pair whose length wraps
      around to a negative number. */
  predicate RangeBounds(start: int, stop: int) {
    0 <= start <= stop && (stop - start + 1 <= MAX_ITEMS || (start == 0 && stop == MAX_INT))
  }

  predicate RangeGrammar(parts: seq<string>) {
    |parts| == 4 && Atoi(parts[2]).Some? && Atoi(parts[3]).Some?
    && RangeBounds(Atoi(parts[2]).value, Atoi(parts[3]).value)
  }

  lemma WrapOfLength(start: int, stop: int)
    requires 0 <= start <= stop <= MAX_INT
    ensures Wrap(Wrap(stop - start) + 1) <= MAX_ITEMS <==> RangeBounds(start, stop)
  {
    var n := stop - start;
    assert (n + MAX_INT + 1) % (2 * (MAX_INT + 1)) == n + MAX_INT + 1;
    if n < MAX_INT {
      assert (n + 1 + MAX_INT + 1) % (2 * (MAX_INT + 1)) == n + 1 + MAX_INT + 1;
    } else {
      assert (n + 1 + MAX_INT + 1) % (2 * (MAX_INT + 1)) == 0;
    }
  }

  /** validateRange, in 64-bit arithmetic. */
  method ValidateRange(parts: seq<string>) returns (ok: bool)
    ensures ok <==> RangeGrammar(parts)
  {
    if |parts| != 4 {
      return false;
    }
    var start := Atoi(parts[2]);
    if start.None? || start.value < 0 {
      return false;
    }
    var stop := Atoi(parts[3]);
    if stop.None? || stop.value < start.value {
      return false;
    }
    WrapOfLength(start.value, stop.value);
    return Wrap(Wrap(stop.value - start.value) + 1) <= MAX_ITEMS;
  }

  /* Scans */

  predicate CountValue(s: string) {
    Atoi(s).Some? && 1 <= Atoi(s).value <= MAX_ITEMS
  }

  /** Position `k` holds the name of an option that has a value. */
  predicate OptionAt(parts: seq<string>, first: nat, k: int) {
    first <= k && k + 1 < |parts| && (k - first) % 2 == 0
  }

  /** All options from `first` on are MATCH with a pattern, except the one at `c`. */
  ghost predicate OthersMatch(parts: seq<string>, first: nat, c: int) {
    forall k :: OptionAt(parts, first, k) && k != c ==> ToUpper(parts[k]) == "MATCH" && parts[k + 1] != ""
  }

  ghost predicate OneCount(parts: seq<string>, first: nat, c: int) {
    && OptionAt(parts, first, c) && ToUpper(parts[c]) == "COUNT" && CountValue(parts[c + 1])
    && OthersMatch(parts, first, c)
  }

  /** A cursor, then MATCH and COUNT pairs, of which exactly one is a COUNT. */
  ghost predicate ScanGrammar(parts: seq<string>, first: nat) {
    && 1 <= first <= |parts| && ParseUint(parts[first - 1]).Some?
    && (|parts| - first) % 2 == 0 && SomeCount(parts, first)
  }

  /** What the option loop decides at position `i`. */
  predicate ScanFrom(parts: seq<string>, i: nat, seenCount: bool)
    decreases |parts| - i
  {
    if i >= |parts| then seenCount
    else
      var name := ToUpper(parts[i]);
      if name == "MATCH" then i + 1 < |parts| && parts[i + 1] != "" && ScanFrom(parts, i + 2, seenCount)
      else name == "COUNT" && i + 1 < |parts| && !seenCount && CountValue(parts[i + 1]) && ScanFrom(parts, i + 2, true)
  }

  lemma NextOption(parts: seq<string>, i: nat, k: int)
    ensures OptionAt(parts, i, k) <==> (k == i && i + 1 < |parts|) || OptionAt(parts, i + 2, k)
  {
  }

  lemma OthersTail(parts: seq<string>, i: nat, c: int)
    requires i + 1 < |parts|
    ensures OthersMatch(parts, i, c) <==>
        (i == c || (ToUpper(parts[i]) == "MATCH" && parts[i + 1] != "")) && OthersMatch(parts, i + 2, c)
  {
    assert OptionAt(parts, i, i);
    forall k ensures OptionAt(parts, i, k) <==> (k == i && i + 1 < |parts|) || OptionAt(parts, i + 2, k) {
      NextOption(parts, i, k);
    }
    if OthersMatch(parts, i, c) {
      var next := i + 2;
      forall k | OptionAt(parts, next, k) && k != c ensures ToUpper(parts[k]) == "MATCH" && parts[k + 1] != "" {
        assert OptionAt(parts, i, k);
      }
    }
  }

  ghost predicate SomeCount(parts: seq<string>, first: nat) {
    exists c :: OneCount(parts, first, c)
  }

  lemma NoOptionBefore(parts: seq<string>, i: nat)
    ensures OthersMatch(parts, i + 2, i) <==> OthersMatch(parts, i + 2, -1)
  {
    var next := i + 2;
    assert forall k :: OptionAt(parts, next, k) ==> k != i && k != -1;
  }

  lemma CountTail(parts: seq<string>, i: nat)
    requires i + 1 < |parts|
    ensures SomeCount(parts, i) <==>
        (ToUpper(parts[i]) == "MATCH" && parts[i + 1] != "" && SomeCount(parts, i + 2))
        || (ToUpper(parts[i]) == "COUNT" && CountValue(parts[i + 1]) && OthersMatch(parts, i + 2, -1))
  {
    assert OptionAt(parts, i, i);
    NoOptionBefore(parts, i);
    OthersTail(parts, i, i);
    if c :| OneCount(parts, i, c) && c != i {
      OthersTail(parts, i, c);
      NextOption(parts, i, c);
      assert OneCount(parts, i + 2, c);
    }
    var next := i + 2;
    if c :| OneCount(parts, next, c) && ToUpper(parts[i]) == "MATCH" && parts[i + 1] != "" {
      OthersTail(parts, i, c);
      NextOption(parts, i, c);
      assert OneCount(parts, i, c);
    }
    if ToUpper(parts[i]) == "COUNT" && CountValue(parts[i + 1]) && OthersMatch(parts, i + 2, -1) {
      assert OneCount(parts, i, i);
    }
  }

  ghost predicate Remaining(parts: seq<string>, i: nat, seenCount: bool) {
    (|parts| - i) % 2 == 0 && if seenCount then OthersMatch(parts, i, -1) else SomeCount(parts, i)
  }

  /** The loop accepts exactly the grammar. */
  lemma {:induction false} ScanLoopIsGrammar(parts: seq<string>, i: nat, seenCount: bool)
    requires i <= |parts|
    ensures ScanFrom(parts, i, seenCount) <==> Remaining(parts, i, seenCount)
    decreases |parts| - i
  {
    if i + 1 < |parts| {
      RemainingStep(parts, i, seenCount);
      ScanLoopIsGrammar(parts, i + 2, seenCount);
      ScanLoopIsGrammar(parts, i + 2, true);
    } else {
      RemainingEnd(parts, i, seenCount);
    }
  }

  lemma RemainingStep(parts: seq<string>, i: nat, seenCount: bool)
    requires i + 1 < |parts|
    ensures Remaining(parts, i, seenCount) <==>
        (ToUpper(parts[i]) == "MATCH" && parts[i + 1] != "" && Remaining(parts, i + 2, seenCount))
        || (ToUpper(parts[i]) == "COUNT" && !seenCount && CountValue(parts[i + 1]) && Remaining(parts, i + 2, true))
  {
    OthersTail(parts, i, -1);
    CountTail(parts, i);
    assert (|parts| - (i + 2)) % 2 == (|parts| - i) % 2;
  }

  lemma RemainingEnd(parts: seq<string>, i: nat, seenCount: bool)
    requires i <= |parts| <= i + 1
    ensures Remaining(parts, i, seenCount) <==> i == |parts| && seenCount
  {
    assert forall k :: !OptionAt(parts, i, k);
  }

  /** validateScan */
  method ValidateScan(parts: seq<string>, baseTokens: nat) returns (ok: bool)
    requires baseTokens >= 1
    ensures ok <==> ScanGrammar(parts, baseTokens)
  {
    if |parts| < baseTokens {
      return false;
    }
    if ParseUint(parts[baseTokens - 1]).None? {
      return false;
    }
    ScanLoopIsGrammar(parts, baseTokens, false);
    var seenCount, i := false, baseTokens;
    while i < |parts|
      invariant baseTokens <= i && ScanFrom(parts, i, seenCount) == ScanFrom(parts, baseTokens, false)
      decreases |parts| - i
    {
      var name := ToUpper(parts[i]);
      if name == "MATCH" {
        if i + 1 >= |parts| || parts[i + 1] == "" {
          return false;
        }
        i := i + 2;
      } else if name == "COUNT" {
        if i + 1 >= |parts| || seenCount {
          return false;
        }
        if !CountValue(parts[i + 1]) {
          return false;
        }
        seenCount := true;
        i := i + 2;
      } else {
        return false;
      }
    }
    return seenCount;
  }

  /* Commands */

  /** What a command's name demands of its arguments. */
  datatype Rule = Arity(least: nat, most: nat) | Range | Scan(baseTokens: nat) | Denied

  function RuleOf(name: string): Rule {
    if name in ARITY then Arity(ARITY[name].0, ARITY[name].1)
    else if name == "LRANGE" || name == "ZRANGE" || name == "ZREVRANGE" then Range
    else if name == "SCAN" then Scan(2)
    else if name == "HSCAN" || name == "SSCAN" || name == "ZSCAN" then Scan(3)
    else Denied
  }

  ghost predicate Obeys(parts: seq<string>, rule: Rule) {
    match rule
    case Arity(least, most) => least <= |parts| <= most
    case Range => RangeGrammar(parts)
    case Scan(baseTokens) => ScanGrammar(parts, baseTokens)
    case Denied => false
  }

  datatype Answer = Accepted | Refused

  ghost function JudgeParts(parts: seq<string>): Answer {
    if parts != [] && Obeys(parts, RuleOf(ToUpper(parts[0]))) then Accepted else Refused
  }

  ghost predicate Shape(parts: seq<string>) {
    JudgeParts(parts) == Accepted
  }

  predicate Separator(c: char) {
    c == ';' || c == '\r' || c == '\n' || c == '\0'
  }

  predicate NoSeparator(s: string) {
    forall i :: 0 <= i < |s| ==> !Separator(s[i])
  }

  ghost function Judge(s: string): Answer {
    if s != "" && ByteLen(s) <= MAX_COMMAND && NoSeparator(s) && Shape(Fields(s)) then Accepted else Refused
  }

  ghost predicate Allowed(command: string) {
    Judge(TrimSpace(command)) == Accepted
  }

  lemma {:induction false} FieldsNotEmpty(word: string, s: string)
    requires word != "" || (s != "" && !IsSpace(s[0]))
    ensures FieldsFrom(word, s) != []
    decreases |s|
  {
    if s != "" && !IsSpace(s[0]) {
      FieldsNotEmpty(word + [s[0]], s[1..]);
    }
  }

  lemma {:induction false} TrimRightPrefix(s: string)
    requires TrimRight(s) != ""
    ensures TrimRight(s)[0] == s[0]
  {
    if s != "" && IsSpace(s[|s| - 1]) {
      TrimRightPrefix(s[..|s| - 1]);
    }
  }

  lemma {:induction false} TrimLeftStart(s: string)
    ensures TrimLeft(s) != "" ==> !IsSpace(TrimLeft(s)[0])
  {
    if s != "" && IsSpace(s[0]) {
      TrimLeftStart(s[1..]);
    }
  }

  /** ValidateReadOnlyCommand */
  method ValidateReadOnlyCommand(command: string) returns (ok: bool)
    ensures ok <==> Allowed(command)
  {
    var s := TrimSpace(command);
    if s == "" || ByteLen(s) > MAX_COMMAND || !NoSeparator(s) {
      return false;
    }
    TrimLeftStart(command);
    TrimRightPrefix(TrimLeft(command));
    FieldsNotEmpty("", s);
    ok := ValidateShape(Fields(s));
  }

  /** The dispatch on the command name. */
  method ValidateShape(parts: seq<string>) returns (ok: bool)
    requires parts != []
    ensures ok <==> Shape(parts)
  {
    var name := ToUpper(parts[0]);
    if name in ARITY {
      return ARITY[name].0 <= |parts| <= ARITY[name].1;
    }
    if name == "LRANGE" || name == "ZRANGE" || name == "ZREVRANGE" {
      ok := ValidateRange(parts);
    } else if name == "SCAN" {
      ok := ValidateScan(parts, 2);
    } else if name == "HSCAN" || name == "SSCAN" || name == "ZSCAN" {
      ok := ValidateScan(parts, 3);
    } else {
      ok := false;
    }
  }
}
