/** The database scope check of internal/testdb/mysql_client.go against the read-only
    policy that runs before it, and how far literals matter for the policy. */
module SqlPolicy {
  import opened Text
  import opened SqlScanners
  import opened SqlIdentifiers
  import opened SqlVerdict

  /* The contents of a literal do not matter */

  lemma {:induction false} SameAfterPrefix(pre: string, t: string, u: string)
    requires Closed(pre)
    requires t != "" && u != "" && t[0] == u[0] && IsQuote(t[0])
    requires Outer(t) == Outer(u)
    ensures Outer(pre + t) == Outer(pre + u)
    decreases |pre|
  {
    if pre == "" {
      assert pre + t == t && pre + u == u;
    } else {
      assert (pre + t)[1..] == pre[1..] + t && (pre + u)[1..] == pre[1..] + u;
      if IsQuote(pre[0]) {
        SameAfterLiteral(pre[1..], pre[0], t, u);
      } else {
        SameAfterPrefix(pre[1..], t, u);
      }
    }
  }

  lemma {:induction false} SameAfterLiteral(pre: string, quote: char, t: string, u: string)
    requires ClosedInside(pre, quote)
    requires t != "" && u != "" && t[0] == u[0] && IsQuote(t[0])
    requires Outer(t) == Outer(u)
    ensures Inside(pre + t, quote) == Inside(pre + u, quote)
    decreases |pre|
  {
    assert (pre + t)[1..] == pre[1..] + t && (pre + u)[1..] == pre[1..] + u;
    if quote != '`' && pre[0] == '\\' {
      assert (pre + t)[2..] == pre[2..] + t && (pre + u)[2..] == pre[2..] + u;
      SameAfterLiteral(pre[2..], quote, t, u);
    } else if pre[0] == quote {
      SameAfterPrefix(pre[1..], t, u);
    } else {
      SameAfterLiteral(pre[1..], quote, t, u);
    }
  }

  function Quoted(body: string, quote: char): string {
    [quote] + body + [quote]
  }

  lemma Reassociate(a: string, b: string, c: string)
    ensures a + b + c == a + (b + c)
  {
  }

  lemma OuterOfLiteral(quote: char, b: string, post: string)
    requires IsQuote(quote) && LiteralBody(b, quote)
    ensures Quoted(b, quote) + post != "" && (Quoted(b, quote) + post)[0] == quote
    ensures Outer(Quoted(b, quote) + post) == Prepend(" ", Prepend(" ", Outer(post)))
  {
    var t := Quoted(b, quote) + post;
    assert t[0] == quote && t[1..] == b + [quote] + post;
    BodyIsSkipped(b, quote, post);
  }

  /** Replacing the body of a quoted literal leaves the normalised text, or the
      error, unchanged. */
  lemma LiteralBodiesAreInterchangeable(pre: string, quote: char, b: string, c: string, post: string)
    requires Closed(pre) && IsQuote(quote) && LiteralBody(b, quote) && LiteralBody(c, quote)
    ensures Normalize(pre + Quoted(b, quote) + post) == Normalize(pre + Quoted(c, quote) + post)
  {
    Reassociate(pre, Quoted(b, quote), post);
    Reassociate(pre, Quoted(c, quote), post);
    OuterOfLiteral(quote, b, post);
    OuterOfLiteral(quote, c, post);
    SameAfterPrefix(pre, Quoted(b, quote) + post, Quoted(c, quote) + post);
  }

  lemma {:induction false} ClosedAfterTrim(pre: string)
    requires Closed(pre)
    ensures Closed(TrimLeft(pre))
  {
    if pre != "" && IsSpace(pre[0]) {
      ClosedAfterTrim(pre[1..]);
    }
  }

  lemma BodyAroundLiteral(pre: string, quote: char, b: string, post: string)
    requires IsQuote(quote)
    ensures Body(pre + Quoted(b, quote) + post)
         == TrimLeft(pre) + Quoted(b, quote) + TrimSemicolon(TrimRight(post))
  {
    var q := Quoted(b, quote);
    assert pre + q + post == pre + (q + post);
    TrimLeftKeeps(pre, q + post);
    var left := TrimLeft(pre) + q;
    assert TrimLeft(pre) + (q + post) == left + post;
    TrimRightKeeps(left, post);
    var right := TrimRight(post);
    if right == "" {
      assert left + right == left;
    } else if right[|right| - 1] == ';' {
      assert (left + right)[..|left + right| - 1] == left + right[..|right| - 1];
    }
  }

  /** The verdict depends on the contents of a literal only through the checks
      on the raw text: length, null byte, semicolon. */
  lemma VerdictIgnoresLiterals(pre: string, quote: char, b: string, c: string, post: string, p: Patterns)
    requires Closed(pre) && IsQuote(quote) && LiteralBody(b, quote) && LiteralBody(c, quote)
    requires RawVerdict(pre + Quoted(b, quote) + post) == RawVerdict(pre + Quoted(c, quote) + post)
    ensures Validate(pre + Quoted(b, quote) + post, p) == Validate(pre + Quoted(c, quote) + post, p)
  {
    BodyAroundLiteral(pre, quote, b, post);
    BodyAroundLiteral(pre, quote, c, post);
    ClosedAfterTrim(pre);
    LiteralBodiesAreInterchangeable(TrimLeft(pre), quote, b, c, TrimSemicolon(TrimRight(post)));
  }

  /* The scope check reads the raw statement again */

  lemma StripThenQuoteFree(t: string, b: string)
    requires Strip(t).Ok? && QuoteFree(b)
    ensures Strip(t + b) == Ok(Strip(t).text + b)
  {
    StripThen(t, b);
    StripQuoteFree(b, "");
    assert b + "" == b;
  }

  predicate Blank(s: string) {
    forall i :: 0 <= i < |s| ==> IsSpace(s[i])
  }

  lemma {:induction false} TrimLeftSplit(s: string) returns (a: string)
    ensures Blank(a) && s == a + TrimLeft(s)
  {
    a := "";
    if s != "" && IsSpace(s[0]) {
      var rest := TrimLeftSplit(s[1..]);
      a := [s[0]] + rest;
    }
  }

  lemma {:induction false} TrimRightSplit(s: string) returns (b: string)
    ensures Blank(b) && s == TrimRight(s) + b
    ensures TrimRight(s) != "" ==> !IsSpace(TrimRight(s)[|TrimRight(s)| - 1])
    ensures b == "" <==> s == "" || !IsSpace(s[|s| - 1])
  {
    b := "";
    if s != "" && IsSpace(s[|s| - 1]) {
      var rest := TrimRightSplit(s[..|s| - 1]);
      b := rest + [s[|s| - 1]];
      assert s == s[..|s| - 1] + [s[|s| - 1]];
    }
  }

  lemma {:induction false} FieldsOfBlanks(word: string, b: string)
    requires Blank(b)
    ensures FieldsFrom(word, b) == Flush(word)
    decreases |b|
  {
    if b != "" {
      FieldsOfBlanks("", b[1..]);
    }
  }

  lemma {:induction false} FieldsAfterBlanks(a: string, t: string)
    requires Blank(a)
    ensures Fields(a + t) == Fields(t)
  {
    if a == "" {
      assert a + t == t;
    } else {
      assert (a + t)[1..] == a[1..] + t;
      FieldsAfterBlanks(a[1..], t);
    }
  }

  lemma {:induction false} FieldsBeforeBlanks(word: string, t: string, b: string)
    requires Blank(b)
    ensures FieldsFrom(word, t + b) == FieldsFrom(word, t)
    decreases |t|
  {
    if t == "" {
      assert t + b == b;
      FieldsOfBlanks(word, b);
    } else {
      assert (t + b)[1..] == t[1..] + b;
      if IsSpace(t[0]) {
        FieldsBeforeBlanks("", t[1..], b);
      } else {
        FieldsBeforeBlanks(word + [t[0]], t[1..], b);
      }
    }
  }

  /** The text validateDirectDatabaseScope matches its SHOW patterns against. */
  function ScopeText(statement: string): Scan {
    var r := Strip(statement);
    if r.Ok? then Ok(Collapse(TrimSemicolon(r.text))) else r
  }

  predicate EndsWithSemicolon(s: string) {
    s != "" && s[|s| - 1] == ';'
  }

  predicate EndsWithSpace(s: string) {
    s != "" && IsSpace(s[|s| - 1])
  }

  /** The statement cut into leading blanks, body, semicolon and trailing blanks. */
  lemma Cut(s: string) returns (a: string, tail: string, b: string)
    requires TrimSpace(s) != ""
    ensures Blank(a) && Blank(b) && s == a + (Body(s) + (tail + b))
    ensures tail == if EndsWithSemicolon(TrimSpace(s)) then ";" else ""
    ensures EndsWithSpace(s) <==> b != ""
  {
    a := TrimLeftSplit(s);
    var u := TrimLeft(s);
    b := TrimRightSplit(u);
    var t := TrimSpace(s);
    tail := if EndsWithSemicolon(t) then ";" else "";
    assert t == Body(s) + tail;
    assert s[|s| - 1] == u[|u| - 1];
    assert s == a + (Body(s) + (tail + b));
  }

  lemma StripOfCut(a: string, body: string, rest: string)
    requires Blank(a) && QuoteFree(rest) && Strip(body).Ok?
    ensures Strip(a + (body + rest)) == Ok(a + (Strip(body).text + rest))
  {
    assert QuoteFree(a);
    StripQuoteFree(a, body + rest);
    StripThenQuoteFree(body, rest);
  }

  lemma CollapseOfCut(a: string, text: string, b: string)
    requires Blank(a) && Blank(b)
    ensures Collapse(a + (text + b)) == Collapse(text)
  {
    FieldsAfterBlanks(a, text + b);
    FieldsBeforeBlanks("", text, b);
  }

  /** Without a semicolon at its end, a text keeps everything. */
  lemma TrimCleanEnd(a: string, text: string, b: string)
    requires Blank(a) && Blank(b) && Clean(text)
    ensures TrimSemicolon(a + (text + b)) == a + (text + b)
  {
    var s := a + (text + b);
    if s != "" && s[|s| - 1] == ';' {
      assert BadChar(s[|s| - 1]);
    }
  }

  lemma TrimLastSemicolon(s: string)
    ensures TrimSemicolon(s + ";") == s
  {
  }

  /** What is left after removing a final semicolon, in each of the cases. */
  lemma TrimSemicolonOfCut(a: string, text: string, tail: string, b: string)
    requires Blank(a) && Blank(b) && Clean(text) && (tail == "" || tail == ";")
    ensures tail == "" || b == "" ==> Collapse(TrimSemicolon(a + (text + (tail + b)))) == Collapse(text)
    ensures tail == ";" && b != "" ==> ';' in Collapse(TrimSemicolon(a + (text + (tail + b))))
  {
    if tail == "" {
      assert tail + b == b;
      TrimCleanEnd(a, text, b);
      CollapseOfCut(a, text, b);
    } else if b == "" {
      assert a + (text + (tail + b)) == a + text + ";";
      TrimLastSemicolon(a + text);
      assert a + (text + "") == a + text;
      CollapseOfCut(a, text, "");
    } else {
      SemicolonStays(a + text, b);
      assert a + (text + (tail + b)) == a + text + ";" + b;
    }
  }

  lemma SemicolonStays(u: string, b: string)
    requires b != "" && Blank(b)
    ensures ';' in Collapse(TrimSemicolon(u + ";" + b))
  {
    var s := u + ";" + b;
    assert s[|s| - 1] == b[|b| - 1];
    assert s[|u|] == ';' && "" + s == s;
    CollapseKeeps("", s, ';');
  }

  lemma {:induction false} BareAfterBlanks(a: string, t: string)
    requires Blank(a)
    ensures Bare(a + t) <==> Bare(t)
  {
    if a == "" {
      assert a + t == t;
    } else {
      assert (a + t)[1..] == a[1..] + t;
      BareAfterBlanks(a[1..], t);
    }
  }

  lemma BareBody(a: string, body: string, rest: string)
    requires Blank(a) && Bare(a + (body + rest))
    ensures Bare(body)
  {
    BareAfterBlanks(a, body + rest);
    BarePrefix(body, rest);
  }

  /** Without a backtick outside a literal: the texts are the same except for a
      semicolon followed by white space. */
  lemma ScopeOfBareStatement(s: string, a: string, tail: string, b: string)
    requires Normalize(Body(s)).Ok? && Bare(s) && Blank(a) && Blank(b) && (tail == "" || tail == ";")
    requires s == a + (Body(s) + (tail + b))
    ensures ScopeText(s).Ok?
    ensures ScopeText(s) == Normalize(Body(s)) <==> tail == "" || b == ""
  {
    var body := Body(s);
    BareBody(a, body, tail + b);
    ScannersAgree(body);
    NormalizedIsClean(body);
    QuoteFreeEnd(tail, b);
    StripOfCut(a, body, tail + b);
    TrimSemicolonOfCut(a, Strip(body).text, tail, b);
    assert BadChar(';');
  }

  lemma ScopeOfOtherStatement(s: string)
    requires Normalize(Body(s)).Ok? && !Bare(s)
    ensures ScopeText(s) != Normalize(Body(s))
  {
    NormalizedIsClean(Body(s));
    if Strip(s).Ok? {
      BacktickShows(s);
      BacktickInScope(Strip(s).text);
      assert NoQuotes(Normalize(Body(s)).text);
    }
  }

  lemma BacktickInScope(t: string)
    requires '`' in t
    ensures '`' in Collapse(TrimSemicolon(t))
  {
    var text := TrimSemicolon(t);
    if text != t {
      assert t == text + ";";
    }
    assert "" + text == text;
    CollapseKeeps("", text, '`');
  }

  /** Query runs both checks on the same statement. Once the first one has accepted
      it, the second looks at the same text if and only if no backtick stands
      outside a literal and no semicolon is followed by white space. */
  lemma ScopeSeesNormalizedText(s: string, p: Patterns)
    requires Validate(s, p) == Accepted
    ensures Normalize(Body(s)).Ok?
    ensures Bare(s) ==> ScopeText(s).Ok?
    ensures ScopeText(s) == Normalize(Body(s))
       <==> Bare(s) && !(EndsWithSemicolon(TrimSpace(s)) && EndsWithSpace(s))
  {
    var a, tail, b := Cut(s);
    if Bare(s) {
      ScopeOfBareStatement(s, a, tail, b);
    } else {
      ScopeOfOtherStatement(s);
    }
  }

  /** The service trims a statement before both checks. Then the second one looks at
      the accepted text if and only if no backtick stands outside a literal. */
  lemma ScopeOfTrimmedStatement(s: string, p: Patterns)
    requires Validate(s, p) == Accepted && TrimSpace(s) == s
    ensures ScopeText(s) == Normalize(Body(s)) <==> Bare(s)
  {
    ScopeSeesNormalizedText(s, p);
    NoSpaceAtEnd(TrimLeft(s));
  }

  lemma {:induction false} NoSpaceAtEnd(s: string)
    ensures TrimRight(s) != "" ==> !IsSpace(TrimRight(s)[|TrimRight(s)| - 1])
  {
    if s != "" && IsSpace(s[|s| - 1]) {
      NoSpaceAtEnd(s[..|s| - 1]);
    }
  }

  /** The stripping scanner keeps every character of an accepted text at its place if
      and only if it has no literal open in front of any of them, nor at the end. */
  lemma ScopeSeesExactly(s: string, p: Patterns)
    requires Validate(s, p) == Accepted
    ensures Outer(Body(s)).Ok?
    ensures Strip(Body(s)).Ok? && Covers(OuterMarks(Body(s)), StripMarks(Body(s))) <==> InStep(Body(s))
    ensures Contained(Body(s)) ==> InStep(Body(s))
  {
    SeenExactlyInStep(Body(s));
    if Contained(Body(s)) {
      ContainedIsInStep(Body(s));
    }
  }

  /** Then every run of characters that was accepted stands in the text of the scope
      check in one piece. */
  lemma ScopeSeesAcceptedText(s: string, p: Patterns, i: nat, j: nat)
    requires Validate(s, p) == Accepted && InStep(Body(s)) && Run(OuterMarks(Body(s)), i, j)
    ensures Strip(s).Ok? && Contains(Strip(s).text, Body(s)[i..j])
  {
    var a, tail, b := Cut(s);
    var body := Body(s);
    RunsAreSeen(body, i, j);
    QuoteFreeEnd(tail, b);
    StripOfCut(a, body, tail + b);
    var before, after := Image(body[..i], StripMarks(body)[..i]), Image(body[j..], StripMarks(body)[j..]);
    InTheMiddle(a, before, body[i..j], after, tail + b);
  }

  lemma QuoteFreeEnd(tail: string, b: string)
    requires Blank(b) && (tail == "" || tail == ";")
    ensures QuoteFree(tail + b)
  {
  }

  lemma InTheMiddle(a: string, before: string, run: string, after: string, b: string)
    ensures Contains(a + ((before + run + after) + b), run)
  {
    ContainsInMiddle(a + before, run, after + b);
    assert a + ((before + run + after) + b) == a + before + run + (after + b);
  }

  /** The condition is needed: an accepted statement whose last word the scope check
      does not see, because two identifiers open a literal each. */
  lemma HiddenFromScope() returns (p: Patterns)
    ensures Validate(HIDING, p) == Accepted && 'x' in Normalize(HIDING).text
    ensures Strip(HIDING).Ok? && 'x' !in Strip(HIDING).text
  {
    p := Patterns(c => true, t => false, t => false, t => false);
    ReadingOfNames();
    StrippingOfNames();
    HidingIsPlain();
    RawAccepted(HIDING);
    WordsOfShow();
    TextOfShow(p);
    ShowHasX();
  }

  lemma ShowHasX()
    ensures 'x' in "SHOW x" && 'x' !in "SHOW `  `"
  {
    assert "SHOW x"[5] == 'x';
  }

  /** A short statement without blanks at its ends or characters that are rejected. */
  lemma RawAccepted(s: string)
    requires s != "" && !IsSpace(s[0]) && !IsSpace(s[|s| - 1]) && 4 * |s| <= MAX_SQL_LENGTH
    requires ';' !in s && '\0' !in s
    ensures TrimSpace(s) == s && Body(s) == s && RawVerdict(s) == Accepted
  {
    assert TrimLeft(s) == s && TrimRight(s) == s;
    ByteLenBound(s);
    assert s[|s| - 1] in s;
  }

  lemma HidingIsPlain()
    ensures |HIDING| == 12 && HIDING[0] == 'S' && HIDING[11] == '`' && ';' !in HIDING && '\0' !in HIDING
  {
  }

  lemma WordsOfShow()
    ensures Collapse("SHOW   x  ") == "SHOW x"
  {
    assert "SHOW   x  " == "SHOW" + "   x  ";
    FieldsOfWord("", "SHOW", "   x  ");
    assert "" + "SHOW" == "SHOW" && "   x  "[1..] == "  x  " && "  x  "[1..] == " x  " && " x  "[1..] == "x  ";
    assert "x  "[1..] == "  " && "  "[1..] == " " && " "[1..] == "";
    assert FieldsFrom("", " ") == [] + [] && FieldsFrom("x", "  ") == ["x"] + [];
    assert FieldsFrom("", "x  ") == FieldsFrom("" + "x", "  ") && "" + "x" == "x";
    assert FieldsFrom("", " x  ") == [] + ["x"] && FieldsFrom("", "  x  ") == [] + ["x"];
    assert FieldsFrom("SHOW", "   x  ") == ["SHOW"] + ["x"];
    assert ["SHOW", "x"][1..] == ["x"] && Join(["x"]) == "x";
    assert "SHOW" + " " + "x" == "SHOW x";
  }

  lemma TextOfShow(p: Patterns)
    requires forall c :: p.letterOrDigit(c)
    requires forall t :: !p.forbidden(t) && !p.suspicious(t)
    ensures TextVerdict("SHOW x", p) == Accepted
  {
    var t := "SHOW x";
    assert TrimLeft(t) == t && TrimRight(t) == t;
    var upper := ToUpper(t);
    assert upper[0] == 'S' && upper[1] == 'H' && upper[2] == 'O' && upper[3] == 'W' && upper[4] == ' ';
    assert upper[..5] == "SHOW " == "SHOW" + " ";
    assert MatchesPrefix(upper, ALLOWED_PREFIXES[1]);
    assert !HasPrefix(upper, "SELECT") by { assert |upper| == 6; assert "SELECT"[1] == 'E'; }
    assert !HasPrefix(upper, "WITH") by { assert "WITH"[0] == 'W'; assert upper[..4][0] == 'S'; }
  }
}
