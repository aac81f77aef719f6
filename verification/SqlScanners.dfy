/** The two scanners that remove quoted literals from an SQL statement, written
    independently of each other: `normalizeForValidation` in
    internal/testdb/validator.go and `stripStringLiterals` in
    internal/testdb/mysql_client.go. */
module SqlScanners {
  import opened Text

  datatype SqlError = BadEscape | Unclosed | Comment | MultipleStatements | EscapeOutside

  datatype Scan = Ok(text: string) | Err(error: SqlError)

  function Prepend(p: string, r: Scan): Scan {
    if r.Ok? then Ok(p + r.text) else r
  }

  predicate IsQuote(c: char) {
    c == '\'' || c == '"' || c == '`'
  }

  /* What normalizeForValidation computes before it collapses white space. */

  /** The verdict on an unquoted character with what follows it. */
  function OuterError(c: char, rest: string): Option<SqlError> {
    if c == '#' then Some(Comment)
    else if c == ';' then Some(MultipleStatements)
    else if c == '\\' then Some(EscapeOutside)
    else if c == '-' && rest != "" && rest[0] == '-' then Some(Comment)
    else if c == '/' && rest != "" && (rest[0] == '*' || rest[0] == '!') then Some(Comment)
    else None
  }

  function Outer(s: string): Scan
    decreases |s|
  {
    if s == "" then Ok("")
    else if IsQuote(s[0]) then Prepend(" ", Inside(s[1..], s[0]))
    else match OuterError(s[0], s[1..])
      case Some(e) => Err(e)
      case None => Prepend([s[0]], Outer(s[1..]))
  }

  /** `s` is what is left of the statement inside a literal opened by `quote`. */
  function Inside(s: string, quote: char): Scan
    decreases |s|
  {
    if s == "" then Err(Unclosed)
    else if quote != '`' && s[0] == '\\' then
      if |s| < 2 then Err(BadEscape) else Inside(s[2..], quote)
    else if s[0] == quote then Prepend(" ", Outer(s[1..]))
    else Inside(s[1..], quote)
  }

  function Normalize(s: string): Scan {
    var r := Outer(s);
    if r.Ok? then Ok(Collapse(r.text)) else r
  }

  /* What stripStringLiterals computes. */

  function Strip(s: string): Scan
    decreases |s|
  {
    if s == "" then Ok("")
    else if s[0] == '\'' || s[0] == '"' then Prepend(" ", StripInside(s[1..], s[0]))
    else Prepend([s[0]], Strip(s[1..]))
  }

  function StripInside(s: string, quote: char): Scan
    decreases |s|
  {
    if s == "" then Err(Unclosed)
    else if s[0] == '\\' then
      if |s| < 2 then Err(Unclosed) else StripInside(s[2..], quote)
    else if s[0] == quote then
      if |s| >= 2 && s[1] == quote then StripInside(s[2..], quote)
      else Prepend(" ", Strip(s[1..]))
    else StripInside(s[1..], quote)
  }

  /* The loops */

  lemma PrependTwice(a: string, b: string, r: Scan)
    ensures Prepend(a, Prepend(b, r)) == Prepend(a + b, r)
  {
    if r.Ok? {
      assert a + (b + r.text) == (a + b) + r.text;
    }
  }

  /** normalizeForValidation: an index, a builder and a nested loop for literals. */
  method NormalizeForValidation(statement: string) returns (r: Scan)
    ensures r == Normalize(statement)
  {
    var result, i := "", 0;
    assert statement[0..] == statement;
    while i < |statement|
      invariant 0 <= i <= |statement|
      invariant Outer(statement) == Prepend(result, Outer(statement[i..]))
    {
      var ch := statement[i];
      ghost var rest := statement[i..];
      assert rest[1..] == statement[i + 1..];
      if ch == '\'' || ch == '"' || ch == '`' {
        var quote := ch;
        PrependTwice(result, " ", Inside(statement[i + 1..], quote));
        result := result + " ";
        i := i + 1;
        var closed := false;
        while i < |statement| && !closed
          invariant 0 <= i <= |statement|
          invariant !closed ==> Outer(statement) == Prepend(result, Inside(statement[i..], quote))
          invariant closed ==> Outer(statement) == Prepend(result, Prepend(" ", Outer(statement[i..])))
          decreases |statement| - i, !closed
        {
          ghost var body := statement[i..];
          assert body[1..] == statement[i + 1..];
          assert |body| >= 2 ==> body[2..] == statement[i + 2..];
          if quote != '`' && statement[i] == '\\' {
            if i + 1 >= |statement| {
              return Err(BadEscape);
            }
            i := i + 2;
          } else if statement[i] == quote {
            i := i + 1;
            closed := true;
          } else {
            i := i + 1;
          }
        }
        if !closed {
          return Err(Unclosed);
        }
        PrependTwice(result, " ", Outer(statement[i..]));
        result := result + " ";
      } else if ch == '-' {
        if i + 1 < |statement| && statement[i + 1] == '-' {
          return Err(Comment);
        }
        PrependTwice(result, [ch], Outer(statement[i + 1..]));
        result := result + [ch];
        i := i + 1;
      } else if ch == '#' {
        return Err(Comment);
      } else if ch == '/' {
        if i + 1 < |statement| && (statement[i + 1] == '*' || statement[i + 1] == '!') {
          return Err(Comment);
        }
        PrependTwice(result, [ch], Outer(statement[i + 1..]));
        result := result + [ch];
        i := i + 1;
      } else if ch == ';' {
        return Err(MultipleStatements);
      } else if ch == '\\' {
        return Err(EscapeOutside);
      } else {
        PrependTwice(result, [ch], Outer(statement[i + 1..]));
        result := result + [ch];
        i := i + 1;
      }
    }
    assert result + "" == result;
    r := Ok(Collapse(result));
  }

  /** stripStringLiterals: a backslash may step past the end of the statement. */
  method StripStringLiterals(statement: string) returns (r: Scan)
    ensures r == Strip(statement)
  {
    var result, index := "", 0;
    assert statement[0..] == statement;
    while index < |statement|
      invariant 0 <= index <= |statement|
      invariant Strip(statement) == Prepend(result, Strip(statement[index..]))
    {
      ghost var rest := statement[index..];
      assert rest[1..] == statement[index + 1..];
      if statement[index] == '\'' || statement[index] == '"' {
        var quote := statement[index];
        PrependTwice(result, " ", StripInside(statement[index + 1..], quote));
        result := result + " ";
        index := index + 1;
        var closed := false;
        while index < |statement| && !closed
          invariant 0 <= index <= |statement| + 1
          invariant closed ==> index <= |statement|
          invariant !closed && index <= |statement| ==>
              Strip(statement) == Prepend(result, StripInside(statement[index..], quote))
          invariant index > |statement| ==> Strip(statement) == Err(Unclosed)
          invariant closed ==> Strip(statement) == Prepend(result, Prepend(" ", Strip(statement[index..])))
          decreases |statement| - index, !closed
        {
          ghost var body := statement[index..];
          assert body[1..] == statement[index + 1..];
          assert |body| >= 2 ==> body[2..] == statement[index + 2..];
          if statement[index] == '\\' {
            index := index + 2;
          } else if statement[index] == quote {
            if index + 1 < |statement| && statement[index + 1] == quote {
              index := index + 2;
            } else {
              index := index + 1;
              closed := true;
            }
          } else {
            index := index + 1;
          }
        }
        if !closed {
          return Err(Unclosed);
        }
        PrependTwice(result, " ", Strip(statement[index..]));
        result := result + " ";
      } else {
        PrependTwice(result, [statement[index]], Strip(statement[index + 1..]));
        result := result + [statement[index]];
        index := index + 1;
      }
    }
    assert result + "" == result;
    r := Ok(result);
  }

  /* Laws of the normalised text */

  predicate BadPair(a: char, b: char) {
    (a == '-' && b == '-') || (a == '/' && (b == '*' || b == '!'))
  }

  predicate BadChar(c: char) {
    c == '#' || c == ';' || c == '\\'
  }

  // No hash, semicolon, backslash, double dash, or slash followed by star or bang.
  ghost predicate Clean(t: string) {
    && (forall i :: 0 <= i < |t| ==> !BadChar(t[i]))
    && (forall i, j :: 0 <= i < j < |t| && j == i + 1 ==> !BadPair(t[i], t[j]))
  }

  predicate NoQuotes(t: string) {
    forall i :: 0 <= i < |t| ==> !IsQuote(t[i])
  }

  lemma CleanCons(c: char, t: string)
    ensures Clean([c] + t) <==> !BadChar(c) && Clean(t) && (t != "" ==> !BadPair(c, t[0]))
  {
    var s := [c] + t;
    assert s[0] == c;
    if Clean(s) {
      forall i | 0 <= i < |t| ensures !BadChar(t[i]) {
        assert s[i + 1] == t[i];
      }
      forall i, j | 0 <= i < j < |t| && j == i + 1 ensures !BadPair(t[i], t[j]) {
        assert s[i + 1] == t[i] && s[j + 1] == t[j];
      }
      if t != "" {
        assert s[1] == t[0];
      }
    }
  }

  lemma CleanAppend(a: string, b: string)
    requires Clean(a) && Clean(b)
    requires a != "" && b != "" ==> !BadPair(a[|a| - 1], b[0])
    ensures Clean(a + b)
  {
  }

  lemma CleanSlice(t: string, i: nat, j: nat)
    requires i <= j <= |t| && Clean(t)
    ensures Clean(t[i..j])
  {
  }

  /** The scan without literals is clean and free of quotes. */
  lemma {:induction false} OuterIsClean(s: string)
    ensures Outer(s).Ok? ==> Clean(Outer(s).text) && NoQuotes(Outer(s).text)
    ensures Outer(s).Ok? && Outer(s).text != "" ==>
        s != "" && Outer(s).text[0] == if IsQuote(s[0]) then ' ' else s[0]
    decreases |s|
  {
    if s == "" {
    } else if IsQuote(s[0]) {
      InsideIsClean(s[1..], s[0]);
      if Outer(s).Ok? {
        CleanCons(' ', Inside(s[1..], s[0]).text);
      }
    } else if OuterError(s[0], s[1..]).None? {
      OuterIsClean(s[1..]);
      if Outer(s).Ok? {
        CleanCons(s[0], Outer(s[1..]).text);
      }
    }
  }

  lemma {:induction false} InsideIsClean(s: string, quote: char)
    ensures Inside(s, quote).Ok? ==> Clean(Inside(s, quote).text) && NoQuotes(Inside(s, quote).text)
    ensures Inside(s, quote).Ok? ==> Inside(s, quote).text != "" && Inside(s, quote).text[0] == ' '
    decreases |s|
  {
    if s == "" {
    } else if quote != '`' && s[0] == '\\' {
      if |s| >= 2 {
        InsideIsClean(s[2..], quote);
      }
    } else if s[0] == quote {
      OuterIsClean(s[1..]);
      if Inside(s, quote).Ok? {
        CleanCons(' ', Outer(s[1..]).text);
      }
    } else {
      InsideIsClean(s[1..], quote);
    }
  }

  ghost predicate AllTidy(words: seq<string>) {
    forall i :: 0 <= i < |words| ==> Clean(words[i]) && NoQuotes(words[i])
  }

  /** Fields are slices of the text, so they inherit its laws. */
  lemma {:induction false} FieldsAreTidy(word: string, s: string)
    requires Clean(word + s) && NoQuotes(word + s)
    ensures AllTidy(FieldsFrom(word, s))
    decreases |s|
  {
    var t := word + s;
    assert t[0..|word|] == word;
    CleanSlice(t, 0, |word|);
    assert NoQuotes(word) by { assert forall i :: 0 <= i < |word| ==> word[i] == t[i]; }
    if s != "" {
      if IsSpace(s[0]) {
        assert t[|word| + 1..|t|] == "" + s[1..];
        CleanSlice(t, |word| + 1, |t|);
        assert NoQuotes("" + s[1..]) by {
          assert forall i :: 0 <= i < |s| - 1 ==> s[1..][i] == t[|word| + 1 + i];
        }
        FieldsAreTidy("", s[1..]);
      } else {
        assert (word + [s[0]]) + s[1..] == t;
        FieldsAreTidy(word + [s[0]], s[1..]);
      }
    }
  }

  lemma {:induction false} JoinIsTidy(words: seq<string>)
    requires AllTidy(words)
    ensures Clean(Join(words)) && NoQuotes(Join(words))
  {
    if |words| > 1 {
      JoinIsTidy(words[1..]);
      CleanCons(' ', Join(words[1..]));
      CleanAppend(words[0], " " + Join(words[1..]));
      assert words[0] + " " + Join(words[1..]) == words[0] + (" " + Join(words[1..]));
    }
  }

  /** A successful result holds no quote and no comment, separator or escape. */
  lemma NormalizedIsClean(s: string)
    requires Normalize(s).Ok?
    ensures Clean(Normalize(s).text) && NoQuotes(Normalize(s).text)
  {
    OuterIsClean(s);
    var t := Outer(s).text;
    assert "" + t == t;
    FieldsAreTidy("", t);
    JoinIsTidy(Fields(t));
  }

  lemma {:induction false} OuterIdentity(t: string)
    requires Clean(t) && NoQuotes(t)
    ensures Outer(t) == Ok(t)
  {
    if t != "" {
      assert t == [t[0]] + t[1..];
      CleanCons(t[0], t[1..]);
      OuterIdentity(t[1..]);
    }
  }

  /** Normalising a normalised statement changes nothing. */
  lemma NormalizeIdempotent(s: string)
    requires Normalize(s).Ok?
    ensures Normalize(Normalize(s).text) == Normalize(s)
  {
    NormalizedIsClean(s);
    OuterIdentity(Normalize(s).text);
    CollapseIdempotent(Outer(s).text);
  }

  /* The two scanners agree */

  /** No backtick stands outside a literal in single or double quotes. */
  predicate Bare(s: string)
    decreases |s|
  {
    || s == ""
    || (s[0] != '`' && if s[0] == '\'' || s[0] == '"' then BareInside(s[1..], s[0]) else Bare(s[1..]))
  }

  predicate BareInside(s: string, quote: char)
    decreases |s|
  {
    || s == ""
    || (if s[0] == '\\' then |s| < 2 || BareInside(s[2..], quote)
        else if s[0] == quote then Bare(s[1..])
        else BareInside(s[1..], quote))
  }

  lemma FieldsIgnoreBlank(word: string, a: string, b: string)
    requires FieldsFrom("", a) == FieldsFrom("", b)
    ensures FieldsFrom(word, " " + a) == FieldsFrom(word, " " + b)
  {
    FieldsOfBlank(word, a);
    FieldsOfBlank(word, b);
  }

  lemma StripStartsLike(s: string)
    requires Strip(s).Ok?
    ensures Strip(s).text == "" <==> s == ""
    ensures s != "" ==> Strip(s).text[0] == if s[0] == '\'' || s[0] == '"' then ' ' else s[0]
  {
  }

  /** Simulation outside a literal: both loops are at the same position. One
      succeeds exactly when the other does and leaves nothing unclean, and the
      outputs then have the same fields. */
  lemma {:induction false} OuterAgree(s: string, word: string)
    requires Bare(s)
    ensures Outer(s).Ok? <==> Strip(s).Ok? && Clean(Strip(s).text)
    ensures Outer(s).Ok? ==> FieldsFrom(word, Outer(s).text) == FieldsFrom(word, Strip(s).text)
    decreases |s|
  {
    if s == "" {
    } else if IsQuote(s[0]) {
      InsideAgree(s[1..], s[0]);
      if StripInside(s[1..], s[0]).Ok? {
        CleanCons(' ', StripInside(s[1..], s[0]).text);
      }
      if Outer(s).Ok? {
        FieldsIgnoreBlank(word, Inside(s[1..], s[0]).text, StripInside(s[1..], s[0]).text);
      }
    } else {
      if Strip(s[1..]).Ok? {
        StripStartsLike(s[1..]);
        CleanCons(s[0], Strip(s[1..]).text);
      }
      OuterAgree(s[1..], word);
      if Outer(s).Ok? {
        var a, b := Outer(s[1..]).text, Strip(s[1..]).text;
        if IsSpace(s[0]) {
          OuterAgree(s[1..], "");
        } else {
          OuterAgree(s[1..], word + [s[0]]);
        }
        assert ([s[0]] + a)[1..] == a && ([s[0]] + b)[1..] == b;
      }
    }
  }

  /** Simulation inside a literal. On a doubled quote the first loop closes and
      opens again, which costs two blanks; the second one skips both quotes. */
  lemma {:induction false} InsideAgree(s: string, quote: char)
    requires BareInside(s, quote) && quote != '`' && IsQuote(quote)
    ensures Inside(s, quote).Ok? <==> StripInside(s, quote).Ok? && Clean(StripInside(s, quote).text)
    ensures Inside(s, quote).Ok? ==>
        FieldsFrom("", Inside(s, quote).text) == FieldsFrom("", StripInside(s, quote).text)
    decreases |s|
  {
    if s == "" {
    } else if s[0] == '\\' {
      if |s| >= 2 {
        InsideAgree(s[2..], quote);
      }
    } else if s[0] == quote {
      if |s| >= 2 && s[1] == quote {
        InsideAgree(s[2..], quote);
        assert s[1..][1..] == s[2..];
        if Inside(s[2..], quote).Ok? {
          var a := Inside(s[2..], quote).text;
          FieldsOfBlank("", " " + a);
          FieldsOfBlank("", a);
        }
      } else {
        OuterAgree(s[1..], "");
        if Strip(s[1..]).Ok? {
          CleanCons(' ', Strip(s[1..]).text);
        }
        if Inside(s, quote).Ok? {
          FieldsIgnoreBlank("", Outer(s[1..]).text, Strip(s[1..]).text);
        }
      }
    } else {
      InsideAgree(s[1..], quote);
    }
  }

  /** If no backtick stands outside a literal, normalisation succeeds exactly when
      stripping does and the stripped text is clean, and its result is the stripped
      text with white space collapsed. */
  lemma ScannersAgree(s: string)
    requires Bare(s)
    ensures Normalize(s).Ok? <==> Strip(s).Ok? && Clean(Strip(s).text)
    ensures Normalize(s).Ok? ==> Normalize(s).text == Collapse(Strip(s).text)
  {
    OuterAgree(s, "");
  }

  /** A backtick outside a literal stays in the stripped text. */
  lemma {:induction false} BacktickShows(s: string)
    requires !Bare(s) && Strip(s).Ok?
    ensures '`' in Strip(s).text
    decreases |s|
  {
    if s[0] == '\'' || s[0] == '"' {
      BacktickShowsLater(s[1..], s[0]);
    } else if s[0] != '`' {
      BacktickShows(s[1..]);
    }
  }

  lemma {:induction false} BacktickShowsLater(s: string, quote: char)
    requires (quote == '\'' || quote == '"') && !BareInside(s, quote) && StripInside(s, quote).Ok?
    ensures '`' in StripInside(s, quote).text
    decreases |s|
  {
    if s[0] == '\\' {
      BacktickShowsLater(s[2..], quote);
    } else if s[0] == quote {
      if |s| >= 2 && s[1] == quote {
        assert s[1..][1..] == s[2..];
        BacktickShowsLater(s[2..], quote);
      } else {
        BacktickShows(s[1..]);
      }
    } else {
      BacktickShowsLater(s[1..], quote);
    }
  }

  /** The exact condition for agreement: for every statement that normalises,
      stripping gives the same text if and only if no backtick stands outside a
      literal. */
  lemma ScannersAgreeExactly(s: string)
    requires Normalize(s).Ok?
    ensures Strip(s).Ok? && Normalize(s).text == Collapse(Strip(s).text) <==> Bare(s)
  {
    if Bare(s) {
      ScannersAgree(s);
    } else if Strip(s).Ok? {
      BacktickShows(s);
      assert "" + Strip(s).text == Strip(s).text;
      CollapseKeeps("", Strip(s).text, '`');
      NormalizedIsClean(s);
    }
  }

  lemma {:induction false} BarePrefix(s: string, t: string)
    requires Bare(s + t)
    ensures Bare(s)
    decreases |s|
  {
    if s != "" {
      assert (s + t)[0] == s[0] && (s + t)[1..] == s[1..] + t;
      if s[0] == '\'' || s[0] == '"' {
        BareInsidePrefix(s[1..], t, s[0]);
      } else {
        BarePrefix(s[1..], t);
      }
    }
  }

  lemma {:induction false} BareInsidePrefix(s: string, t: string, quote: char)
    requires BareInside(s + t, quote)
    ensures BareInside(s, quote)
    decreases |s|
  {
    if s != "" {
      assert (s + t)[0] == s[0] && (s + t)[1..] == s[1..] + t;
      if s[0] == '\\' {
        if |s| >= 2 {
          assert (s + t)[2..] == s[2..] + t;
          BareInsidePrefix(s[2..], t, quote);
        }
      } else if s[0] == quote {
        BarePrefix(s[1..], t);
      } else {
        BareInsidePrefix(s[1..], t, quote);
      }
    }
  }

  /** Statements on which they differ: only the first scanner treats a backtick as
      a quote. Inside a literal a backtick makes no difference. */
  lemma BacktickSeparatesScanners()
    ensures Normalize("`a'b`") == Ok("")
    ensures Strip("`a'b`") == Err(Unclosed)
    ensures Normalize("`id`") == Ok("") && Strip("`id`") == Ok("`id`")
    ensures Bare("'`'")
  {
    QuoteInName();
    PlainName();
    TwoBlanks();
    assert "'`'"[1..] == "`'" && "`'"[1..] == "'" && "'"[1..] == "";
  }

  lemma QuoteInName()
    ensures Outer("`a'b`") == Ok("  ") && Strip("`a'b`") == Err(Unclosed)
  {
    assert "`a'b`"[1..] == "a'b`" && "a'b`"[1..] == "'b`" && "'b`"[1..] == "b`" && "b`"[1..] == "`" && "`"[1..] == "";
    assert Inside("`", '`') == Ok(" " + "");
    assert Inside("b`", '`') == Ok(" ") && Inside("'b`", '`') == Ok(" ") && Inside("a'b`", '`') == Ok(" ");
    assert StripInside("b`", '\'') == StripInside("`", '\'') == StripInside("", '\'') == Err(Unclosed);
    assert Strip("'b`") == Err(Unclosed) && Strip("a'b`") == Err(Unclosed);
  }

  lemma PlainName()
    ensures Outer("`id`") == Ok("  ") && Strip("`id`") == Ok("`id`")
  {
    assert "`id`"[1..] == "id`" && "id`"[1..] == "d`" && "d`"[1..] == "`" && "`"[1..] == "";
    assert Inside("`", '`') == Ok(" " + "") && Inside("d`", '`') == Ok(" ") && Inside("id`", '`') == Ok(" ");
    assert Strip("`") == Ok("`") && Strip("d`") == Ok("d`") && Strip("id`") == Ok("id`");
  }

  lemma TwoBlanks()
    ensures Collapse("  ") == ""
  {
    assert "  "[1..] == " " && " "[1..] == "";
    assert FieldsFrom("", "  ") == FieldsFrom("", " ") == FieldsFrom("", "") == [];
  }

  /* Stripping in parts */

  predicate QuoteFree(s: string) {
    forall i :: 0 <= i < |s| ==> s[i] != '\'' && s[i] != '"'
  }

  lemma {:induction false} StripQuoteFree(a: string, t: string)
    requires QuoteFree(a)
    ensures Strip(a + t) == Prepend(a, Strip(t))
  {
    if a == "" {
      assert a + t == t;
      if Strip(t).Ok? { assert "" + Strip(t).text == Strip(t).text; }
    } else {
      assert (a + t)[1..] == a[1..] + t;
      StripQuoteFree(a[1..], t);
      PrependTwice([a[0]], a[1..], Strip(t));
      assert [a[0]] + a[1..] == a;
    }
  }

  lemma {:induction false} StripThen(t: string, u: string)
    requires Strip(t).Ok? && (u == "" || (u[0] != '\'' && u[0] != '"'))
    ensures Strip(t + u) == Prepend(Strip(t).text, Strip(u))
    decreases |t|
  {
    if t == "" {
      assert t + u == u;
      if Strip(u).Ok? { assert "" + Strip(u).text == Strip(u).text; }
    } else {
      assert (t + u)[0] == t[0] && (t + u)[1..] == t[1..] + u;
      if t[0] == '\'' || t[0] == '"' {
        InsideThen(t[1..], t[0], u);
        PrependTwice(" ", StripInside(t[1..], t[0]).text, Strip(u));
      } else {
        StripThen(t[1..], u);
        PrependTwice([t[0]], Strip(t[1..]).text, Strip(u));
      }
    }
  }

  lemma {:induction false} InsideThen(t: string, quote: char, u: string)
    requires (quote == '\'' || quote == '"') && StripInside(t, quote).Ok?
    requires u == "" || (u[0] != '\'' && u[0] != '"')
    ensures StripInside(t + u, quote) == Prepend(StripInside(t, quote).text, Strip(u))
    decreases |t|
  {
    var s := t + u;
    assert s[0] == t[0] && s[1..] == t[1..] + u;
    if t[0] == '\\' {
      assert s[2..] == t[2..] + u;
      InsideThen(t[2..], quote, u);
    } else if t[0] == quote {
      if |t| >= 2 && t[1] == quote {
        assert s[2..] == t[2..] + u && s[1] == t[1];
        InsideThen(t[2..], quote, u);
      } else {
        assert |s| >= 2 ==> s[1] != quote;
        StripThen(t[1..], u);
        PrependTwice(" ", Strip(t[1..]).text, Strip(u));
      }
    } else {
      InsideThen(t[1..], quote, u);
    }
  }

  /** What leaves a literal open stays unclosed without another quote. */
  lemma {:induction false} UnclosedStays(t: string, u: string)
    requires Strip(t).Err? && QuoteFree(u)
    ensures Strip(t + u).Err?
    decreases |t|
  {
    assert (t + u)[0] == t[0] && (t + u)[1..] == t[1..] + u;
    if t[0] == '\'' || t[0] == '"' {
      UnclosedInside(t[1..], t[0], u);
    } else {
      UnclosedStays(t[1..], u);
    }
  }

  lemma {:induction false} UnclosedInside(t: string, quote: char, u: string)
    requires (quote == '\'' || quote == '"') && StripInside(t, quote).Err? && QuoteFree(u)
    ensures StripInside(t + u, quote).Err?
    decreases |t|
  {
    var s := t + u;
    if t == "" {
      assert s == u;
      NeverClosed(u, quote);
    } else {
      assert s[0] == t[0] && s[1..] == t[1..] + u;
      if t[0] == '\\' {
        if |t| >= 2 {
          assert s[2..] == t[2..] + u;
          UnclosedInside(t[2..], quote, u);
        } else if |s| >= 2 {
          assert s[2..] == u[1..];
          NeverClosed(u[1..], quote);
        }
      } else if t[0] == quote {
        if |t| >= 2 && t[1] == quote {
          assert s[2..] == t[2..] + u && s[1] == t[1];
          UnclosedInside(t[2..], quote, u);
        } else {
          assert |s| >= 2 ==> s[1] != quote;
          UnclosedStays(t[1..], u);
        }
      } else {
        UnclosedInside(t[1..], quote, u);
      }
    }
  }

  lemma {:induction false} NeverClosed(u: string, quote: char)
    requires (quote == '\'' || quote == '"') && QuoteFree(u)
    ensures StripInside(u, quote).Err?
    decreases |u|
  {
    if u != "" {
      if u[0] == '\\' {
        if |u| >= 2 { NeverClosed(u[2..], quote); }
      } else {
        NeverClosed(u[1..], quote);
      }
    }
  }

  /* Literal contents do not matter */

  /** `body` is scanned from inside a literal to inside it again. */
  predicate LiteralBody(body: string, quote: char)
    decreases |body|
  {
    || body == ""
    || (if quote != '`' && body[0] == '\\' then |body| >= 2 && LiteralBody(body[2..], quote)
        else body[0] != quote && LiteralBody(body[1..], quote))
  }

  /** `pre` is scanned without error from outside a literal to outside again,
      when a quote follows it. */
  predicate Closed(pre: string)
    decreases |pre|
  {
    || pre == ""
    || (if IsQuote(pre[0]) then ClosedInside(pre[1..], pre[0])
        else OuterError(pre[0], pre[1..]).None? && Closed(pre[1..]))
  }

  predicate ClosedInside(pre: string, quote: char)
    decreases |pre|
  {
    && pre != ""
    && (if quote != '`' && pre[0] == '\\' then |pre| >= 2 && ClosedInside(pre[2..], quote)
        else if pre[0] == quote then Closed(pre[1..])
        else ClosedInside(pre[1..], quote))
  }

  lemma {:induction false} BodyIsSkipped(body: string, quote: char, post: string)
    requires IsQuote(quote) && LiteralBody(body, quote)
    ensures Inside(body + [quote] + post, quote) == Prepend(" ", Outer(post))
    decreases |body|
  {
    var s := body + [quote] + post;
    if body == "" {
      assert s[0] == quote && s[1..] == post;
    } else if quote != '`' && body[0] == '\\' {
      assert s[2..] == body[2..] + [quote] + post;
      BodyIsSkipped(body[2..], quote, post);
    } else {
      assert s[1..] == body[1..] + [quote] + post;
      BodyIsSkipped(body[1..], quote, post);
    }
  }
}
