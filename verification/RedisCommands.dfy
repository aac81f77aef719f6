/** The commands that the Redis policy lets through, by their names. */
module RedisCommands {
  import opened Text
  import opened RedisPolicy

  /** Commands with a fixed number of tokens, the name included. */
  predicate FixedTokens(name: string, n: nat) {
    || (name in {"GET", "STRLEN", "TYPE", "TTL", "PTTL", "HLEN", "LLEN", "SCARD", "ZCARD"} && n == 2)
    || (name in {"HGET", "HEXISTS", "LINDEX", "SISMEMBER", "ZSCORE", "ZRANK", "ZREVRANK"} && n == 3)
    || (name in {"MGET", "EXISTS"} && 2 <= n <= 51)
    || (name == "HMGET" && 3 <= n <= 52)
  }

  lemma TwoTokens(name: string)
    requires name in {"GET", "STRLEN", "TYPE", "TTL", "PTTL", "HLEN", "LLEN", "SCARD", "ZCARD"}
    ensures name in ARITY && ARITY[name] == (2, 2)
  {
  }

  lemma ThreeTokens(name: string)
    requires name in {"HGET", "HEXISTS", "LINDEX", "SISMEMBER", "ZSCORE", "ZRANK", "ZREVRANK"}
    ensures name in ARITY && ARITY[name] == (3, 3)
  {
  }

  lemma ManyTokens(name: string)
    requires name in {"MGET", "EXISTS", "HMGET"}
    ensures name in ARITY && ARITY[name] == if name == "HMGET" then (3, 52) else (2, 51)
  {
  }

  lemma ListedNames(name: string)
    ensures name in ARITY <==>
        name in {"GET", "STRLEN", "TYPE", "TTL", "PTTL", "HLEN", "LLEN", "SCARD", "ZCARD"}
        || name in {"HGET", "HEXISTS", "LINDEX", "SISMEMBER", "ZSCORE", "ZRANK", "ZREVRANK"}
        || name in {"MGET", "EXISTS", "HMGET"}
  {
  }

  /** The names with a rule of their own are not in the table. */
  lemma OtherNames(name: string)
    requires name in {"LRANGE", "ZRANGE", "ZREVRANGE", "SCAN", "HSCAN", "SSCAN", "ZSCAN"}
    ensures name !in ARITY
  {
    ListedNames(name);
  }

  lemma RuleOfFixed(name: string, n: nat)
    ensures name in ARITY ==> (ARITY[name].0 <= n <= ARITY[name].1 <==> FixedTokens(name, n))
    ensures name !in ARITY ==> !FixedTokens(name, n)
  {
    ListedNames(name);
    if name in {"GET", "STRLEN", "TYPE", "TTL", "PTTL", "HLEN", "LLEN", "SCARD", "ZCARD"} {
      TwoTokens(name);
    } else if name in {"HGET", "HEXISTS", "LINDEX", "SISMEMBER", "ZSCORE", "ZRANK", "ZREVRANK"} {
      ThreeTokens(name);
    } else if name in {"MGET", "EXISTS", "HMGET"} {
      ManyTokens(name);
    }
  }

  /** What each name demands. */
  ghost predicate Permitted(name: string, parts: seq<string>) {
    || FixedTokens(name, |parts|)
    || (name in {"LRANGE", "ZRANGE", "ZREVRANGE"} && RangeGrammar(parts))
    || (name == "SCAN" && ScanGrammar(parts, 2))
    || (name in {"HSCAN", "SSCAN", "ZSCAN"} && ScanGrammar(parts, 3))
  }

  lemma ShapeExactly(parts: seq<string>)
    requires parts != []
    ensures Shape(parts) <==> Permitted(ToUpper(parts[0]), parts)
  {
    var name := ToUpper(parts[0]);
    RuleOfFixed(name, |parts|);
    if name in {"LRANGE", "ZRANGE", "ZREVRANGE", "SCAN", "HSCAN", "SSCAN", "ZSCAN"} {
      OtherNames(name);
    }
  }

  /** The commands that are let through. */
  lemma AllowedExactly(command: string)
    ensures Allowed(command) <==>
        && TrimSpace(command) != "" && ByteLen(TrimSpace(command)) <= 4096
        && (forall c :: c in TrimSpace(command) ==> c !in ";\r\n\0")
        && Fields(TrimSpace(command)) != []
        && Permitted(ToUpper(Fields(TrimSpace(command))[0]), Fields(TrimSpace(command)))
  {
    var s := TrimSpace(command);
    SeparatorsMean(s);
    if Fields(s) != [] {
      ShapeExactly(Fields(s));
    }
  }

  lemma SeparatorsMean(s: string)
    ensures NoSeparator(s) <==> forall c :: c in s ==> c !in ";\r\n\0"
  {
    if forall c :: c in s ==> c !in ";\r\n\0" {
      forall i | 0 <= i < |s| ensures !Separator(s[i]) {
        assert s[i] in s && s[i] !in ";\r\n\0";
        assert ";\r\n\0"[0] == ';' && ";\r\n\0"[1] == '\r' && ";\r\n\0"[2] == '\n' && ";\r\n\0"[3] == '\0';
      }
    }
  }

  /* Numbers */

  /** Counts in decimal. */
  lemma CountsMean(n: nat)
    requires n <= 0x7FFF_FFFF_FFFF_FFFF
    ensures CountValue(Decimal(n)) <==> 1 <= n <= 500
  {
    AtoiOfDecimal(n);
  }

  /** Ranges in decimal: at most 500 items, or everything. */
  lemma RangesMean(name: string, key: string, start: nat, stop: nat)
    requires start <= 0x7FFF_FFFF_FFFF_FFFF && stop <= 0x7FFF_FFFF_FFFF_FFFF
    ensures RangeGrammar([name, key, Decimal(start), Decimal(stop)]) <==>
        start <= stop && (stop < start + 500 || (start == 0 && stop == 0x7FFF_FFFF_FFFF_FFFF))
  {
    AtoiOfDecimal(start);
    AtoiOfDecimal(stop);
  }
}
