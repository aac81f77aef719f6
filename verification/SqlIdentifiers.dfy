/** Identifiers in backticks: `stripStringLiterals` in internal/testdb/mysql_client.go
    looks for literals inside them, `normalizeForValidation` in
    internal/testdb/validator.go does not. */
module SqlIdentifiers {
  import opened Text
  import opened SqlScanners

  /** Every identifier closes, for the stripping scanner, the literals it opens. */
  predicate Contained(s: string)
    decreases |s|
  {
    || s == ""
    || (if s[0] == '`' then ContainedName("", s[1..])
        else if IsQuote(s[0]) then ContainedInside(s[1..], s[0])
        else Contained(s[1..]))
  }

  /** `name` is the part of the identifier already read. */
  predicate ContainedName(name: string, s: string)
    decreases |s|
  {
    || s == ""
    || (if s[0] == '`' then Strip(name).Ok? && Contained(s[1..]) else ContainedName(name + [s[0]], s[1..]))
  }

  predicate ContainedInside(s: string, quote: char)
    decreases |s|
  {
    || s == ""
    || (if s[0] == '\\' then |s| < 2 || ContainedInside(s[2..], quote)
        else if s[0] == quote then Contained(s[1..])
        else ContainedInside(s[1..], quote))
  }

  /* What becomes of each character */

  /** A character is copied, a blank is written in its place, or it is skipped. */
  datatype Mark = Copied | Edge | Skipped

  /** The marks of normalizeForValidation. */
  function OuterMarks(s: string): (m: seq<Mark>)
    ensures |m| == |s|
    decreases |s|
  {
    if s == "" then []
    else if IsQuote(s[0]) then [Edge] + InsideMarks(s[1..], s[0])
    else [Copied] + OuterMarks(s[1..])
  }

  function InsideMarks(s: string, quote: char): (m: seq<Mark>)
    ensures |m| == |s|
    decreases |s|
  {
    if s == "" then []
    else if quote != '`' && s[0] == '\\' then
      if |s| < 2 then [Skipped] else [Skipped, Skipped] + InsideMarks(s[2..], quote)
    else if s[0] == quote then [Edge] + OuterMarks(s[1..])
    else [Skipped] + InsideMarks(s[1..], quote)
  }

  /** The marks of stripStringLiterals. */
  function StripMarks(s: string): (m: seq<Mark>)
    ensures |m| == |s|
    decreases |s|
  {
    if s == "" then []
    else if s[0] == '\'' || s[0] == '"' then [Edge] + StripInsideMarks(s[1..], s[0])
    else [Copied] + StripMarks(s[1..])
  }

  function StripInsideMarks(s: string, quote: char): (m: seq<Mark>)
    ensures |m| == |s|
    decreases |s|
  {
    if s == "" then []
    else if s[0] == '\\' then
      if |s| < 2 then [Skipped] else [Skipped, Skipped] + StripInsideMarks(s[2..], quote)
    else if s[0] == quote then
      if |s| >= 2 && s[1] == quote then [Skipped, Skipped] + StripInsideMarks(s[2..], quote)
      else [Edge] + StripMarks(s[1..])
    else [Skipped] + StripInsideMarks(s[1..], quote)
  }

  /** The text that marks make of a statement. */
  function Image(s: string, m: seq<Mark>): string
    requires |m| == |s|
  {
    if s == "" then ""
    else (match m[0] case Copied => [s[0]] case Edge => " " case Skipped => "") + Image(s[1..], m[1..])
  }

  lemma ImageStep(s: string, x: Mark, m: seq<Mark>)
    requires s != "" && |m| == |s| - 1
    ensures Image(s, [x] + m) == (match x case Copied => [s[0]] case Edge => " " case Skipped => "") + Image(s[1..], m)
  {
    assert ([x] + m)[1..] == m;
  }

  lemma ImageSkip(s: string, m: seq<Mark>)
    requires |s| >= 2 && |m| == |s| - 2
    ensures Image(s, [Skipped, Skipped] + m) == Image(s[2..], m)
  {
    assert [Skipped, Skipped] + m == [Skipped] + ([Skipped] + m) && s[1..][1..] == s[2..];
    ImageStep(s, Skipped, [Skipped] + m);
    ImageStep(s[1..], Skipped, m);
  }

  /** The first scanner's output is the image of its marks. */
  lemma {:induction false} OuterIsImage(s: string)
    requires Outer(s).Ok?
    ensures Outer(s).text == Image(s, OuterMarks(s))
    decreases |s|
  {
    if s == "" {
    } else if IsQuote(s[0]) {
      InsideIsImage(s[1..], s[0]);
      ImageStep(s, Edge, InsideMarks(s[1..], s[0]));
    } else {
      OuterIsImage(s[1..]);
      ImageStep(s, Copied, OuterMarks(s[1..]));
    }
  }

  lemma {:induction false} InsideIsImage(s: string, quote: char)
    requires Inside(s, quote).Ok?
    ensures Inside(s, quote).text == Image(s, InsideMarks(s, quote))
    decreases |s|
  {
    if quote != '`' && s[0] == '\\' {
      InsideIsImage(s[2..], quote);
      ImageSkip(s, InsideMarks(s[2..], quote));
    } else if s[0] == quote {
      OuterIsImage(s[1..]);
      ImageStep(s, Edge, OuterMarks(s[1..]));
    } else {
      InsideIsImage(s[1..], quote);
      ImageStep(s, Skipped, InsideMarks(s[1..], quote));
    }
  }

  /** So is the second scanner's. */
  lemma {:induction false} StripIsImage(s: string)
    requires Strip(s).Ok?
    ensures Strip(s).text == Image(s, StripMarks(s))
    decreases |s|
  {
    if s == "" {
    } else if s[0] == '\'' || s[0] == '"' {
      StripInsideIsImage(s[1..], s[0]);
      ImageStep(s, Edge, StripInsideMarks(s[1..], s[0]));
    } else {
      StripIsImage(s[1..]);
      ImageStep(s, Copied, StripMarks(s[1..]));
    }
  }

  lemma {:induction false} StripInsideIsImage(s: string, quote: char)
    requires StripInside(s, quote).Ok?
    ensures StripInside(s, quote).text == Image(s, StripInsideMarks(s, quote))
    decreases |s|
  {
    if s[0] == '\\' || (s[0] == quote && |s| >= 2 && s[1] == quote) {
      StripInsideIsImage(s[2..], quote);
      ImageSkip(s, StripInsideMarks(s[2..], quote));
    } else if s[0] == quote {
      StripIsImage(s[1..]);
      ImageStep(s, Edge, StripMarks(s[1..]));
    } else {
      StripInsideIsImage(s[1..], quote);
      ImageStep(s, Skipped, StripInsideMarks(s[1..], quote));
    }
  }

  /** A run of copied characters. */
  predicate Run(m: seq<Mark>, i: nat, j: nat) {
    i <= j <= |m| && forall k :: i <= k < j ==> m[k] == Copied
  }

  function Piece(c: char, m: Mark): string {
    match m case Copied => [c] case Edge => " " case Skipped => ""
  }

  lemma {:induction false} ImageSplit(s: string, m: seq<Mark>, i: nat)
    requires |m| == |s| && i <= |s|
    ensures Image(s, m) == Image(s[..i], m[..i]) + Image(s[i..], m[i..])
    decreases i
  {
    if i == 0 {
      assert s[0..] == s && m[0..] == m && s[..0] == "" && m[..0] == [];
      assert "" + Image(s, m) == Image(s, m);
    } else {
      ImageSplit(s[1..], m[1..], i - 1);
      assert s[1..][..i - 1] == s[..i][1..] && m[1..][..i - 1] == m[..i][1..];
      assert s[1..][i - 1..] == s[i..] && m[1..][i - 1..] == m[i..];
      ImageHead(s, m);
      ImageHead(s[..i], m[..i]);
      Regroup(Piece(s[0], m[0]), Image(s[..i][1..], m[..i][1..]), Image(s[i..], m[i..]));
    }
  }

  lemma ImageHead(s: string, m: seq<Mark>)
    requires s != "" && |m| == |s|
    ensures Image(s, m) == Piece(s[0], m[0]) + Image(s[1..], m[1..])
  {
  }

  lemma Regroup(a: string, b: string, c: string)
    ensures a + (b + c) == (a + b) + c
  {
  }

  lemma {:induction false} ImageOfRun(s: string, m: seq<Mark>)
    requires |m| == |s| && forall k :: 0 <= k < |m| ==> m[k] == Copied
    ensures Image(s, m) == s
  {
    if s != "" {
      ImageOfRun(s[1..], m[1..]);
      ImageHead(s, m);
    }
  }

  /** A run stands in the image in one piece. */
  lemma RunStaysTogether(s: string, m: seq<Mark>, i: nat, j: nat)
    requires |m| == |s| && Run(m, i, j)
    ensures Image(s, m) == Image(s[..i], m[..i]) + s[i..j] + Image(s[j..], m[j..])
  {
    ImageSplit(s, m, i);
    ImageSplit(s[i..], m[i..], j - i);
    assert s[i..][..j - i] == s[i..j] && m[i..][..j - i] == m[i..j];
    assert s[i..][j - i..] == s[j..] && m[i..][j - i..] == m[j..];
    ImageOfRun(s[i..j], m[i..j]);
    Regroup(Image(s[..i], m[..i]), s[i..j], Image(s[j..], m[j..]));
  }

  /* The law */

  /** Whatever is copied in `a` is copied in `b`. */
  predicate Covers(a: seq<Mark>, b: seq<Mark>) {
    |a| == |b| && forall k :: 0 <= k < |a| && a[k] == Copied ==> b[k] == Copied
  }

  lemma CoversStep(x: Mark, y: Mark, a: seq<Mark>, b: seq<Mark>)
    requires Covers(a, b) && (x == Copied ==> y == Copied)
    ensures Covers([x] + a, [y] + b)
  {
  }

  /** What the first scanner copies, the second one copies at the same place, when
      literals are closed in every identifier. */
  lemma {:induction false} SeenOutside(s: string)
    requires Outer(s).Ok? && Contained(s)
    ensures Strip(s).Ok? && Covers(OuterMarks(s), StripMarks(s))
    decreases |s|
  {
    if s == "" {
    } else if s[0] == '`' {
      SeenInName("", s[1..]);
      assert "" + s[1..] == s[1..] && StripMarks(s[1..])[0..] == StripMarks(s[1..]);
      CoversStep(Edge, Copied, InsideMarks(s[1..], '`'), StripMarks(s[1..]));
    } else if IsQuote(s[0]) {
      SeenInLiteral(s[1..], s[0]);
      CoversStep(Edge, Edge, InsideMarks(s[1..], s[0]), StripInsideMarks(s[1..], s[0]));
    } else {
      SeenOutside(s[1..]);
      CoversStep(Copied, Copied, OuterMarks(s[1..]), StripMarks(s[1..]));
    }
  }

  lemma {:induction false} SeenInName(name: string, s: string)
    requires Inside(s, '`').Ok? && ContainedName(name, s)
    ensures Strip(name + s).Ok? && Covers(InsideMarks(s, '`'), StripMarks(name + s)[|name|..])
    decreases |s|
  {
    if s[0] == '`' {
      SeenOutside(s[1..]);
      StripThen(name, s);
      MarksThen(name, s);
      assert (StripMarks(name) + StripMarks(s))[|name|..] == StripMarks(s);
      CoversStep(Edge, Copied, OuterMarks(s[1..]), StripMarks(s[1..]));
    } else {
      assert name + [s[0]] + s[1..] == name + s;
      SeenInName(name + [s[0]], s[1..]);
      var m := StripMarks(name + s);
      assert m[|name|..] == [m[|name|]] + m[|name| + 1..];
      CoversStep(Skipped, m[|name|], InsideMarks(s[1..], '`'), m[|name| + 1..]);
    }
  }

  lemma {:induction false} SeenInLiteral(s: string, quote: char)
    requires quote == '\'' || quote == '"'
    requires Inside(s, quote).Ok? && ContainedInside(s, quote)
    ensures StripInside(s, quote).Ok? && Covers(InsideMarks(s, quote), StripInsideMarks(s, quote))
    decreases |s|
  {
    if s[0] == '\\' {
      SeenInLiteral(s[2..], quote);
    } else if s[0] == quote {
      if |s| >= 2 && s[1] == quote {
        assert s[1..][1..] == s[2..];
        SeenInLiteral(s[2..], quote);
        CoversStep(Edge, Skipped, InsideMarks(s[2..], quote), StripInsideMarks(s[2..], quote));
        CoversStep(Edge, Skipped, [Edge] + InsideMarks(s[2..], quote), [Skipped] + StripInsideMarks(s[2..], quote));
        assert [Skipped] + ([Skipped] + StripInsideMarks(s[2..], quote)) == StripInsideMarks(s, quote);
      } else {
        SeenOutside(s[1..]);
        CoversStep(Edge, Edge, OuterMarks(s[1..]), StripMarks(s[1..]));
      }
    } else {
      SeenInLiteral(s[1..], quote);
      CoversStep(Skipped, Skipped, InsideMarks(s[1..], quote), StripInsideMarks(s[1..], quote));
    }
  }

  lemma {:induction false} MarksThen(t: string, u: string)
    requires Strip(t).Ok? && (u == "" || (u[0] != '\'' && u[0] != '"'))
    ensures StripMarks(t + u) == StripMarks(t) + StripMarks(u)
    decreases |t|
  {
    if t == "" {
      assert t + u == u;
    } else {
      assert (t + u)[0] == t[0] && (t + u)[1..] == t[1..] + u;
      if t[0] == '\'' || t[0] == '"' {
        MarksInsideThen(t[1..], t[0], u);
        MarksRegroup([Edge], StripInsideMarks(t[1..], t[0]), StripMarks(u));
      } else {
        MarksThen(t[1..], u);
        MarksRegroup([Copied], StripMarks(t[1..]), StripMarks(u));
      }
    }
  }

  lemma MarksRegroup(a: seq<Mark>, b: seq<Mark>, c: seq<Mark>)
    ensures a + (b + c) == (a + b) + c
  {
  }

  lemma {:induction false} MarksInsideThen(t: string, quote: char, u: string)
    requires (quote == '\'' || quote == '"') && StripInside(t, quote).Ok?
    requires u == "" || (u[0] != '\'' && u[0] != '"')
    ensures StripInsideMarks(t + u, quote) == StripInsideMarks(t, quote) + StripMarks(u)
    decreases |t|
  {
    var s := t + u;
    assert s[0] == t[0] && s[1..] == t[1..] + u;
    if t[0] == '\\' || (t[0] == quote && |t| >= 2 && t[1] == quote) {
      assert s[2..] == t[2..] + u && s[1] == t[1];
      MarksInsideThen(t[2..], quote, u);
      MarksRegroup([Skipped, Skipped], StripInsideMarks(t[2..], quote), StripMarks(u));
    } else if t[0] == quote {
      assert |s| >= 2 ==> s[1] != quote;
      MarksThen(t[1..], u);
      MarksRegroup([Edge], StripMarks(t[1..]), StripMarks(u));
    } else {
      MarksInsideThen(t[1..], quote, u);
      MarksRegroup([Skipped], StripInsideMarks(t[1..], quote), StripMarks(u));
    }
  }

  /* The condition is exact for each character */

  /** A character that is no quote is copied by the second scanner exactly when the
      text in front of it leaves no literal open. */
  lemma {:induction false} CopiedMeansClosed(s: string, i: nat)
    requires i < |s| && s[i] != '\'' && s[i] != '"'
    ensures StripMarks(s)[i] == Copied <==> Strip(s[..i]).Ok?
    decreases |s|
  {
    if i > 0 {
      assert s[..i][0] == s[0] && s[..i][1..] == s[1..][..i - 1];
      if s[0] == '\'' || s[0] == '"' {
        CopiedInside(s[1..], s[0], i - 1);
      } else {
        CopiedMeansClosed(s[1..], i - 1);
      }
    }
  }

  lemma {:induction false} CopiedInside(s: string, quote: char, i: nat)
    requires (quote == '\'' || quote == '"') && i < |s| && s[i] != '\'' && s[i] != '"'
    ensures StripInsideMarks(s, quote)[i] == Copied <==> StripInside(s[..i], quote).Ok?
    decreases |s|
  {
    if i > 0 {
      var t := s[..i];
      assert t[0] == s[0] && t[1..] == s[1..][..i - 1];
      if s[0] == '\\' || (s[0] == quote && s[1] == quote) {
        if i >= 2 {
          assert t[1] == s[1] && t[2..] == s[2..][..i - 2];
          CopiedInside(s[2..], quote, i - 2);
        }
      } else if s[0] == quote {
        assert i >= 2 ==> t[1] == s[1];
        CopiedMeansClosed(s[1..], i - 1);
      } else {
        CopiedInside(s[1..], quote, i - 1);
      }
    }
  }

  lemma {:induction false} OuterCopiesNoQuote(s: string, i: nat)
    requires i < |s| && OuterMarks(s)[i] == Copied
    ensures !IsQuote(s[i])
    decreases |s|
  {
    if IsQuote(s[0]) {
      InsideCopiesNoQuote(s[1..], s[0], i - 1);
    } else if i > 0 {
      OuterCopiesNoQuote(s[1..], i - 1);
    }
  }

  lemma {:induction false} InsideCopiesNoQuote(s: string, quote: char, i: nat)
    requires i < |s| && InsideMarks(s, quote)[i] == Copied
    ensures !IsQuote(s[i])
    decreases |s|
  {
    if quote != '`' && s[0] == '\\' {
      InsideCopiesNoQuote(s[2..], quote, i - 2);
    } else if s[0] == quote {
      OuterCopiesNoQuote(s[1..], i - 1);
    } else {
      InsideCopiesNoQuote(s[1..], quote, i - 1);
    }
  }

  /** In front of every character that the first scanner copies, the second one has
      no literal open, and none at the end. */
  predicate InStep(s: string) {
    Strip(s).Ok? && forall i :: 0 <= i < |s| && OuterMarks(s)[i] == Copied ==> Strip(s[..i]).Ok?
  }

  /** The exact condition: the second scanner succeeds and copies whatever the first
      one copies if and only if they are in step. */
  lemma SeenExactlyInStep(s: string)
    ensures Strip(s).Ok? && Covers(OuterMarks(s), StripMarks(s)) <==> InStep(s)
  {
    forall i | 0 <= i < |s| && OuterMarks(s)[i] == Copied
      ensures StripMarks(s)[i] == Copied <==> Strip(s[..i]).Ok?
    {
      OuterCopiesNoQuote(s, i);
      CopiedMeansClosed(s, i);
    }
  }

  /** Closed identifiers keep the scanners in step. */
  lemma ContainedIsInStep(s: string)
    requires Outer(s).Ok? && Contained(s)
    ensures InStep(s)
  {
    SeenOutside(s);
    SeenExactlyInStep(s);
  }

  /** A run that the first scanner copies stands in the second one's text in one
      piece, where it stood in the statement. */
  lemma RunsAreSeen(s: string, i: nat, j: nat)
    requires InStep(s) && Run(OuterMarks(s), i, j)
    ensures Strip(s).text
         == Image(s[..i], StripMarks(s)[..i]) + s[i..j] + Image(s[j..], StripMarks(s)[j..])
  {
    SeenExactlyInStep(s);
    StripIsImage(s);
    RunStaysTogether(s, StripMarks(s), i, j);
  }

  /* The condition is exact for each identifier */

  function Named(name: string, post: string): string {
    "`" + (name + ("`" + post))
  }

  /** The identifier hides nothing of what follows it. */
  predicate Harmless(name: string, post: string) {
    Strip(Named(name, post)).Ok? && Covers(OuterMarks(post), StripMarks(Named(name, post))[|name| + 2..])
  }

  /** An identifier is harmless in front of every text whose own identifiers are
      closed, exactly when the stripping scanner finds its literals closed. */
  lemma ClosedNamesAreHarmless(name: string)
    ensures (forall post :: Outer(post).Ok? && Contained(post) ==> Harmless(name, post)) <==> Strip(name).Ok?
  {
    if Strip(name).Ok? {
      forall post | Outer(post).Ok? && Contained(post) ensures Harmless(name, post) {
        SeenAfterName(name, post);
      }
    } else {
      HiddenAfterName(name);
    }
  }

  lemma SeenAfterName(name: string, post: string)
    requires Strip(name).Ok? && Outer(post).Ok? && Contained(post)
    ensures Harmless(name, post)
  {
    SeenOutside(post);
    var tail := "`" + post;
    assert tail[1..] == post && Named(name, post)[1..] == name + tail;
    StripThen(name, tail);
    MarksThen(name, tail);
    assert StripMarks(Named(name, post)) == [Copied] + (StripMarks(name) + ([Copied] + StripMarks(post)));
    assert StripMarks(Named(name, post))[|name| + 2..] == StripMarks(post);
  }

  /** Behind an open literal everything without a quote is lost. */
  lemma HiddenAfterName(name: string)
    requires Strip(name).Err?
    ensures Outer("x").Ok? && Contained("x") && !Harmless(name, "x")
  {
    assert "x"[1..] == "";
    UnclosedStays(name, "`" + "x");
    assert Named(name, "x")[1..] == name + ("`" + "x");
  }

  /* An accepted statement with a hidden part */

  const HIDING := "SHOW `'`x`'`"

  lemma {:induction false} OuterPlain(a: string, t: string)
    requires forall i :: 0 <= i < |a| ==> !IsQuote(a[i]) && a[i] in "SHOWx "
    ensures Outer(a + t) == Prepend(a, Outer(t))
    decreases |a|
  {
    if a == "" {
      assert a + t == t;
      if Outer(t).Ok? { assert "" + Outer(t).text == Outer(t).text; }
    } else {
      assert (a + t)[0] == a[0] && (a + t)[1..] == a[1..] + t;
      OuterPlain(a[1..], t);
      PrependTwice([a[0]], a[1..], Outer(t));
      assert [a[0]] + a[1..] == a;
    }
  }

  lemma OuterName(post: string)
    ensures Outer("`'`" + post) == Prepend("  ", Outer(post))
  {
    var s := "`'`" + post;
    assert s[0] == '`' && s[1..] == "'" + ['`'] + post;
    BodyIsSkipped("'", '`', post) by { assert "'"[1..] == ""; }
    PrependTwice(" ", " ", Outer(post));
    assert " " + " " == "  ";
  }

  lemma ReadingTail()
    ensures Outer("x`'`") == Ok("x  ")
  {
    OuterName("");
    assert "`'`" + "" == "`'`" && "x" + "`'`" == "x`'`" && "  " + "" == "  " && Outer("") == Ok("");
    OuterPlain("x", "`'`");
    assert "x" + "  " == "x  ";
  }

  lemma HidingInParts()
    ensures HIDING == "SHOW " + ("`'`" + "x`'`") && "SHOW " + ("  " + "x  ") == "SHOW   x  "
  {
  }

  lemma OuterOfParts(a: string, t: string, text: string)
    requires forall i :: 0 <= i < |a| ==> !IsQuote(a[i]) && a[i] in "SHOWx "
    requires Outer(t) == Ok(text)
    ensures Outer(a + ("`'`" + t)) == Ok(a + ("  " + text))
  {
    OuterName(t);
    OuterPlain(a, "`'`" + t);
  }

  lemma ReadingOfNames()
    ensures Outer(HIDING) == Ok("SHOW   x  ")
  {
    ReadingTail();
    OuterOfParts("SHOW ", "x`'`", "x  ");
    HidingInParts();
  }

  lemma StrippingTail()
    ensures Strip("'`x`'`") == Ok(" " + (" " + "`"))
  {
    assert "'`x`'`"[1..] == "`x`'`" && "`x`'`"[1..] == "x`'`" && "x`'`"[1..] == "`'`" && "`'`"[1..] == "'`";
    assert "'`"[1..] == "`" && "`"[1..] == "";
    assert Strip("`") == Ok("`" + "");
    assert StripInside("'`", '\'') == Ok(" " + "`");
    assert StripInside("`x`'`", '\'') == StripInside("x`'`", '\'') == StripInside("`'`", '\'') == Ok(" " + "`");
  }

  lemma StrippingOfNames()
    ensures Strip(HIDING) == Ok("SHOW `  `")
  {
    StrippingTail();
    assert HIDING == "SHOW `" + "'`x`'`";
    StripQuoteFree("SHOW `", "'`x`'`");
    assert "SHOW `" + (" " + (" " + "`")) == "SHOW `  `";
  }
}
