/** The Redis inspector, internal/redisinspect/service.go: every command it issues is
    allowed by the policy. */
module RedisInspector {
  import opened Text
  import opened RedisPolicy

  const MAX_KEY: nat := 512

  /** unicode.IsControl */
  predicate IsControl(c: char) {
    var u := c as int;
    u <= 0x1F || 0x7F <= u <= 0x9F
  }

  predicate KeyChar(c: char) {
    !IsSpace(c) && !IsControl(c) && c != ';'
  }

  predicate ValidKey(key: string) {
    key != "" && ByteLen(key) <= MAX_KEY && forall i :: 0 <= i < |key| ==> KeyChar(key[i])
  }

  /** validateKey */
  method ValidateKey(key: string) returns (ok: bool)
    ensures ok <==> ValidKey(key)
    ensures ok <==>
        key != "" && ByteLen(key) <= 512
        && forall i :: 0 <= i < |key| ==> !IsSpace(key[i]) && !IsControl(key[i]) && key[i] != ';'
  {
    if key == "" || ByteLen(key) > MAX_KEY {
      return false;
    }
    for i := 0 to |key|
      invariant forall j :: 0 <= j < i ==> KeyChar(key[j])
    {
      if !KeyChar(key[i]) {
        return false;
      }
    }
    return true;
  }

  /** valueCommand; the empty string means that the type is not supported. */
  function ValueCommand(redisType: string, key: string, maxItems: nat): string
    requires maxItems >= 1
  {
    var t := ToLower(redisType);
    if t == "string" then "GET " + key
    else if t == "list" then "LRANGE " + key + " 0 " + Decimal(maxItems - 1)
    else if t == "hash" then "HSCAN " + key + " 0 COUNT " + Decimal(maxItems)
    else if t == "set" then "SSCAN " + key + " 0 COUNT " + Decimal(maxItems)
    else if t == "zset" then "ZSCAN " + key + " 0 COUNT " + Decimal(maxItems)
    else ""
  }

  /** The command that reads at most `n` items of a key of this type. */
  predicate ReadsValue(command: string, redisType: string, key: string, n: int) {
    || (redisType == "string" && command == "GET " + key)
    || (redisType == "list" && n >= 1 && command == "LRANGE " + key + " 0 " + Decimal(n - 1))
    || (redisType == "hash" && n >= 1 && command == "HSCAN " + key + " 0 COUNT " + Decimal(n))
    || (redisType == "set" && n >= 1 && command == "SSCAN " + key + " 0 COUNT " + Decimal(n))
    || (redisType == "zset" && n >= 1 && command == "ZSCAN " + key + " 0 COUNT " + Decimal(n))
  }

  /** Exactly the types of bounded values have a command, each the one that reads it. */
  lemma ValueCommandExactly(redisType: string, key: string, n: nat)
    requires n >= 1
    ensures ValueCommand(redisType, key, n) == "" <==>
        ToLower(redisType) !in {"string", "list", "hash", "set", "zset"}
    ensures ValueCommand(redisType, key, n) != "" ==>
        ReadsValue(ValueCommand(redisType, key, n), ToLower(redisType), key, n)
  {
  }

  ghost predicate Token(s: string) {
    Word(s) && NoSeparator(s)
  }

  ghost predicate Tokens(words: seq<string>) {
    forall i :: 0 <= i < |words| ==> Token(words[i])
  }

  lemma {:induction false} JoinOfTokens(words: seq<string>)
    requires words != [] && Tokens(words) && forall i :: 0 <= i < |words| ==> ByteLen(words[i]) <= MAX_KEY
    ensures Join(words) != "" && NoSeparator(Join(words)) && ByteLen(Join(words)) <= 513 * |words|
    ensures !IsSpace(Join(words)[0]) && !IsSpace(Join(words)[|Join(words)| - 1])
  {
    var w := words[0];
    assert Token(w);
    if |words| > 1 {
      JoinOfTokens(words[1..]);
      ByteLenOfSum(w + " ", Join(words[1..]));
      ByteLenOfSum(w, " ");
    }
  }

  lemma TrimNothing(s: string)
    requires s != "" && !IsSpace(s[0]) && !IsSpace(s[|s| - 1])
    ensures TrimSpace(s) == s
  {
  }

  lemma PrintedReads(words: seq<string>)
    requires words != [] && Tokens(words) && forall i :: 0 <= i < |words| ==> ByteLen(words[i]) <= MAX_KEY
    ensures TrimSpace(Join(words)) == Join(words) && Fields(Join(words)) == words
  {
    JoinOfTokens(words);
    TrimNothing(Join(words));
    FieldsOfJoin(words);
  }

  /** A command printed from at most five short tokens is judged by those tokens. */
  lemma PrintedCommand(words: seq<string>)
    requires 0 < |words| <= 5 && Tokens(words) && Shape(words)
    requires forall i :: 0 <= i < |words| ==> ByteLen(words[i]) <= MAX_KEY
    ensures Allowed(Join(words))
  {
    PrintedReads(words);
    JoinOfTokens(words);
  }

  lemma KeyIsToken(key: string)
    requires ValidKey(key)
    ensures Token(key)
  {
    forall i | 0 <= i < |key| ensures !IsSpace(key[i]) && !Separator(key[i]) {
      assert KeyChar(key[i]);
    }
  }

  lemma DigitsAreToken(s: string)
    requires s != "" && AllDigits(s)
    ensures Token(s) && ByteLen(s) <= 4 * |s|
  {
    assert forall i :: 0 <= i < |s| ==> IsDigit(s[i]);
    ByteLenBound(s);
  }

  lemma NumberIsToken(n: nat)
    requires n <= 500
    ensures Token(Decimal(n)) && ByteLen(Decimal(n)) <= 12
  {
    var s := Decimal(n);
    assert n >= 10 ==> |s| == |Decimal(n / 10)| + 1;
    assert n / 10 >= 10 ==> |Decimal(n / 10)| == |Decimal(n / 10 / 10)| + 1;
    assert n / 10 / 10 < 10;
    DigitsAreToken(s);
  }

  lemma {:induction false} ShortDecimal(n: nat, k: nat)
    requires n < Power(k + 1)
    ensures |Decimal(n)| <= k + 1
    decreases k
  {
    if n >= 10 {
      ShortDecimal(n / 10, k - 1);
    }
  }

  function Power(k: nat): nat {
    if k == 0 then 1 else 10 * Power(k - 1)
  }

  predicate Keyword(s: string) {
    0 < |s| <= 6 && forall i :: 0 <= i < |s| ==> 'A' <= s[i] <= 'Z'
  }

  lemma KeywordIsToken(s: string)
    requires Keyword(s)
    ensures Token(s) && ByteLen(s) <= 24 && ToUpper(s) == s
  {
    ByteLenBound(s);
  }

  /** A two-token command on a valid key. */
  lemma SimpleCommand(name: string, key: string)
    requires ValidKey(key) && (name == "TYPE" || name == "TTL" || name == "GET")
    ensures Allowed(name + " " + key)
  {
    KeyIsToken(key);
    assert Keyword(name);
    KeywordIsToken(name);
    SimpleShape(name, key);
    PrintedCommand([name, key]);
    JoinCons(name, [key]);
    assert [name] + [key] == [name, key];
  }

  lemma SimpleShape(name: string, key: string)
    requires name == "TYPE" || name == "TTL" || name == "GET"
    ensures Shape([name, key])
  {
    assert Keyword(name);
    KeywordIsToken(name);
    assert name in ARITY && ARITY[name] == (2, 2);
  }

  lemma ZeroIsToken()
    ensures Token("0") && ByteLen("0") <= 4 && Atoi("0") == Some(0) && ParseUint("0") == Some(0)
  {
    NumberIsToken(0);
    AtoiOfDecimal(0);
    ValueOfDecimal(0);
    ByteLenBound("0");
    assert Decimal(0) == "0";
  }

  lemma JoinFour(a: string, b: string, c: string, d: string)
    ensures Join([a, b, c, d]) == a + " " + (b + " " + (c + " " + d))
  {
    JoinCons(c, [d]);
    JoinCons(b, [c] + [d]);
    JoinCons(a, [b] + ([c] + [d]));
    assert [a, b, c, d] == [a] + ([b] + ([c] + [d]));
  }

  lemma JoinCons(w: string, words: seq<string>)
    requires words != []
    ensures Join([w] + words) == w + " " + Join(words)
  {
    assert ([w] + words)[1..] == words;
  }

  lemma DispatchedNames()
    ensures "LRANGE" !in ARITY && "HSCAN" !in ARITY && "SSCAN" !in ARITY && "ZSCAN" !in ARITY
  {
  }

  /** The range command with these bounds. */
  function RangeWords(key: string, n: nat): seq<string> {
    ["LRANGE", key, "0", Decimal(n)]
  }

  lemma RangeShape(key: string, n: nat)
    requires n <= MAX_INT && RangeBounds(0, n)
    ensures Shape(RangeWords(key, n))
  {
    assert Keyword("LRANGE");
    KeywordIsToken("LRANGE");
    DispatchedNames();
    ZeroIsToken();
    AtoiOfDecimal(n);
  }

  lemma RangeTokens(key: string, n: nat)
    requires ValidKey(key) && n <= MAX_INT
    ensures Tokens(RangeWords(key, n))
    ensures forall i :: 0 <= i < 4 ==> ByteLen(RangeWords(key, n)[i]) <= MAX_KEY
  {
    KeyIsToken(key);
    IntIsToken(n);
    ZeroIsToken();
    assert Keyword("LRANGE");
    KeywordIsToken("LRANGE");
  }

  lemma IntIsToken(n: nat)
    requires n <= MAX_INT
    ensures Token(Decimal(n)) && ByteLen(Decimal(n)) <= 76
  {
    MaxIntIsShort();
    ShortDecimal(n, 18);
    DigitsAreToken(Decimal(n));
  }

  lemma MaxIntIsShort()
    ensures MAX_INT < Power(19)
  {
    assert Power(5) == 100_000 by { assert Power(3) == 1000; }
    assert Power(10) == 10_000_000_000 by { assert Power(8) == 100_000_000; }
    assert Power(15) == 1_000_000_000_000_000 by { assert Power(13) == 10_000_000_000_000; }
    assert Power(17) == 100_000_000_000_000_000;
  }

  lemma RangeText(key: string, d: string)
    ensures Join(["LRANGE", key, "0", d]) == "LRANGE " + key + " 0 " + d
  {
    JoinFour("LRANGE", key, "0", d);
    assert "LRANGE" + " " + (key + " " + ("0" + " " + d)) == "LRANGE " + key + " 0 " + d;
  }

  lemma RangeIsAllowed(key: string, n: nat)
    requires ValidKey(key) && n <= MAX_INT && RangeBounds(0, n)
    ensures Allowed("LRANGE " + key + " 0 " + Decimal(n))
  {
    RangeTokens(key, n);
    RangeShape(key, n);
    PrintedCommand(RangeWords(key, n));
    RangeText(key, Decimal(n));
  }

  lemma RangeCommand(key: string, n: nat)
    requires ValidKey(key) && 1 <= n <= 500
    ensures Allowed("LRANGE " + key + " 0 " + Decimal(n - 1))
  {
    RangeIsAllowed(key, n - 1);
  }

  /** The one range beyond the limit that is accepted: all of a list, for every
      valid key. */
  lemma WholeListIsAccepted(key: string)
    requires ValidKey(key)
    ensures Allowed("LRANGE " + key + " 0 " + Decimal(MAX_INT))
  {
    RangeIsAllowed(key, MAX_INT);
  }

  predicate ScanName(name: string) {
    name == "HSCAN" || name == "SSCAN" || name == "ZSCAN"
  }

  lemma ScanNameIsToken(name: string)
    requires ScanName(name)
    ensures Token(name) && ByteLen(name) <= 24 && ToUpper(name) == name
    ensures Token("COUNT") && ByteLen("COUNT") <= 24 && ToUpper("COUNT") == "COUNT"
  {
    assert Keyword(name) && Keyword("COUNT");
    KeywordIsToken(name);
    KeywordIsToken("COUNT");
  }

  lemma ScanOptions(words: seq<string>, n: nat)
    requires |words| == 5 && words[2] == "0" && words[3] == "COUNT" && words[4] == Decimal(n) && 1 <= n <= 500
    ensures ScanGrammar(words, 3)
  {
    AtoiOfDecimal(n);
    ZeroIsToken();
    ScanNameIsToken("HSCAN");
    assert OneCount(words, 3, 3);
  }

  lemma ScanShape(name: string, key: string, n: nat)
    requires 1 <= n <= 500 && ScanName(name)
    ensures Shape([name, key, "0", "COUNT", Decimal(n)])
  {
    ScanNameIsToken(name);
    DispatchedNames();
    ScanOptions([name, key, "0", "COUNT", Decimal(n)], n);
  }

  lemma ScanText(name: string, key: string, d: string)
    ensures Join([name, key, "0", "COUNT", d]) == name + " " + key + " 0 COUNT " + d
  {
    JoinFour(key, "0", "COUNT", d);
    JoinCons(name, [key, "0", "COUNT", d]);
    assert [name, key, "0", "COUNT", d] == [name] + [key, "0", "COUNT", d];
    assert name + " " + (key + " " + ("0" + " " + ("COUNT" + " " + d))) == name + " " + key + " 0 COUNT " + d;
  }

  lemma ScanCommand(name: string, key: string, n: nat)
    requires ValidKey(key) && 1 <= n <= 500 && ScanName(name)
    ensures Allowed(name + " " + key + " 0 COUNT " + Decimal(n))
  {
    KeyIsToken(key);
    NumberIsToken(n);
    ZeroIsToken();
    ScanNameIsToken(name);
    ScanShape(name, key, n);
    PrintedCommand([name, key, "0", "COUNT", Decimal(n)]);
    ScanText(name, key, Decimal(n));
  }

  lemma ValueCommandIsAllowed(redisType: string, key: string, n: nat)
    requires ValidKey(key) && 1 <= n <= 500 && ValueCommand(redisType, key, n) != ""
    ensures Allowed(ValueCommand(redisType, key, n))
  {
    var t := ToLower(redisType);
    if t == "string" {
      SimpleCommand("GET", key);
      assert "GET" + " " + key == "GET " + key;
    } else if t == "list" {
      RangeCommand(key, n);
    } else {
      var name := if t == "hash" then "HSCAN" else if t == "set" then "SSCAN" else "ZSCAN";
      ScanCommand(name, key, n);
      assert name + " " == if t == "hash" then "HSCAN " else if t == "set" then "SSCAN " else "ZSCAN ";
    }
  }

  /** Every command the inspector can issue for a valid key passes the policy. */
  lemma GeneratedCommandsAreAllowed(redisType: string, key: string, n: nat)
    requires ValidKey(key) && 1 <= n <= 500
    ensures Allowed("TYPE " + key) && Allowed("TTL " + key)
    ensures ValueCommand(redisType, key, n) != "" ==> Allowed(ValueCommand(redisType, key, n))
  {
    SimpleCommand("TYPE", key);
    SimpleCommand("TTL", key);
    assert "TYPE" + " " + key == "TYPE " + key && "TTL" + " " + key == "TTL " + key;
    if ValueCommand(redisType, key, n) != "" {
      ValueCommandIsAllowed(redisType, key, n);
    }
  }

  /** Zero items means the default. */
  function Requested(maxItems: int): int {
    if maxItems == 0 then 100 else maxItems
  }

  ghost predicate AllAllowed(commands: seq<string>) {
    forall i :: 0 <= i < |commands| ==> Allowed(commands[i])
  }

  lemma OneMoreAllowed(commands: seq<string>, c: string)
    requires AllAllowed(commands) && Allowed(c)
    ensures AllAllowed(commands + [c])
  {
  }

  /** Inspect as the sequence of queries it makes; `reply` gives the decoded
      answers, None for a failed query or an answer that cannot be decoded. */
  method Inspect(key: string, requested: int, reply: string -> Option<string>) returns (issued: seq<string>)
    ensures AllAllowed(issued)
    ensures issued == [] <==> !ValidKey(key) || requested < 0 || requested > 500
    ensures |issued| >= 1 ==> issued[0] == "TYPE " + key
    ensures |issued| >= 2 <==> |issued| >= 1 && reply("TYPE " + key).Some? && reply("TYPE " + key).value != ""
    ensures |issued| >= 2 ==> issued[1] == "TTL " + key
    ensures |issued| == 3 <==>
        (|issued| >= 2 && reply("TTL " + key).Some?
         && ValueCommand(reply("TYPE " + key).value, key, Requested(requested)) != "")
    ensures |issued| == 3 ==> issued[2] == ValueCommand(reply("TYPE " + key).value, key, Requested(requested))
    ensures |issued| == 3 ==>
        ReadsValue(issued[2], ToLower(reply("TYPE " + key).value), key, if requested == 0 then 100 else requested)
    ensures |issued| <= 3
  {
    issued := [];
    var valid := ValidateKey(key);
    if !valid {
      return;
    }
    var maxItems := requested;
    if maxItems == 0 {
      maxItems := 100;
    }
    if maxItems < 1 || maxItems > 500 {
      return;
    }
    var redisType := reply("TYPE " + key);
    GeneratedCommandsAreAllowed(if redisType.Some? then redisType.value else "", key, maxItems);
    issued := ["TYPE " + key];
    if redisType.None? || redisType.value == "" {
      return;
    }
    OneMoreAllowed(issued, "TTL " + key);
    issued := issued + ["TTL " + key];
    if reply("TTL " + key).None? {
      return;
    }
    var command := ValueCommand(redisType.value, key, maxItems);
    ValueCommandExactly(redisType.value, key, maxItems);
    if command != "" {
      OneMoreAllowed(issued, command);
      issued := issued + [command];
    }
  }
}
