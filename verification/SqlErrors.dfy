/** Which error the normalising scanner of internal/testdb/validator.go reports: the
    first offence outside literals, or a literal that never ends. */
module SqlErrors {
  import opened Text
  import opened SqlScanners

  /** What may not stand outside a literal. */
  predicate Offends(s: string, e: SqlError) {
    || (HasPrefix(s, "#") && e == Comment)
    || (HasPrefix(s, "--") && e == Comment)
    || (HasPrefix(s, "/*") && e == Comment)
    || (HasPrefix(s, "/!") && e == Comment)
    || (HasPrefix(s, ";") && e == MultipleStatements)
    || (HasPrefix(s, "\\") && e == EscapeOutside)
  }

  /** The rest of a statement inside a literal that is never closed. */
  predicate NeverEnds(s: string, quote: char, e: SqlError) {
    || (LiteralBody(s, quote) && e == Unclosed)
    || (quote != '`' && s != "" && s[|s| - 1] == '\\' && LiteralBody(s[..|s| - 1], quote) && e == BadEscape)
  }

  /** The statement fails here. */
  predicate FailsAt(rest: string, e: SqlError) {
    Offends(rest, e) || (rest != "" && IsQuote(rest[0]) && NeverEnds(rest[1..], rest[0], e))
  }

  /* A failure is reported */

  lemma OneChar(s: string, c: char)
    ensures HasPrefix(s, [c]) <==> s != "" && s[0] == c
  {
    if s != "" {
      assert s[..1] == [s[0]];
    }
  }

  lemma TwoChars(s: string, c: char, d: char)
    ensures HasPrefix(s, [c, d]) <==> |s| >= 2 && s[0] == c && s[1] == d
  {
    if |s| >= 2 {
      assert s[..2] == [s[0], s[1]];
    }
  }

  lemma OffendsExactly(s: string, e: SqlError)
    ensures Offends(s, e) <==> s != "" && OuterError(s[0], s[1..]) == Some(e)
  {
    OneChar(s, '#');
    OneChar(s, ';');
    OneChar(s, '\\');
    TwoChars(s, '-', '-');
    TwoChars(s, '/', '*');
    TwoChars(s, '/', '!');
  }

  lemma {:induction false} BodyNeverEnds(s: string, quote: char)
    requires LiteralBody(s, quote)
    ensures Inside(s, quote) == Err(Unclosed)
    decreases |s|
  {
    if s != "" {
      if quote != '`' && s[0] == '\\' {
        BodyNeverEnds(s[2..], quote);
      } else {
        BodyNeverEnds(s[1..], quote);
      }
    }
  }

  lemma {:induction false} LastEscape(body: string, quote: char)
    requires quote != '`' && LiteralBody(body, quote)
    ensures Inside(body + "\\", quote) == Err(BadEscape)
    decreases |body|
  {
    var s := body + "\\";
    if body == "" {
      assert s == "\\";
    } else if body[0] == '\\' {
      assert s[2..] == body[2..] + "\\";
      LastEscape(body[2..], quote);
    } else {
      assert s[1..] == body[1..] + "\\";
      LastEscape(body[1..], quote);
    }
  }

  lemma FailureIsReported(rest: string, e: SqlError)
    requires FailsAt(rest, e)
    ensures Outer(rest) == Err(e)
  {
    OffendsExactly(rest, e);
    if IsQuote(rest[0]) {
      var s, quote := rest[1..], rest[0];
      if LiteralBody(s, quote) && e == Unclosed {
        BodyNeverEnds(s, quote);
      } else {
        assert s == s[..|s| - 1] + "\\";
        LastEscape(s[..|s| - 1], quote);
      }
    }
  }

  /** What does not offend by itself may do so together with what follows, in the same
      way as what follows. */
  lemma OffendsTogether(c: char, rest: string, e: SqlError)
    requires OuterError(c, "").None? && FailsAt(rest, e)
    ensures OuterError(c, rest).None? || OuterError(c, rest) == Some(e)
  {
    OffendsExactly(rest, e);
  }

  lemma {:induction false} FailureBehind(pre: string, rest: string, e: SqlError)
    requires Closed(pre) && FailsAt(rest, e)
    ensures Outer(pre + rest) == Err(e)
    decreases |pre|
  {
    if pre == "" {
      assert pre + rest == rest;
      FailureIsReported(rest, e);
    } else {
      assert (pre + rest)[1..] == pre[1..] + rest;
      if IsQuote(pre[0]) {
        FailureBehindLiteral(pre[1..], pre[0], rest, e);
      } else {
        FailureBehind(pre[1..], rest, e);
        if |pre| == 1 {
          assert pre[1..] + rest == rest;
          OffendsTogether(pre[0], rest, e);
        }
      }
    }
  }

  lemma {:induction false} FailureBehindLiteral(pre: string, quote: char, rest: string, e: SqlError)
    requires ClosedInside(pre, quote) && FailsAt(rest, e)
    ensures Inside(pre + rest, quote) == Err(e)
    decreases |pre|
  {
    assert (pre + rest)[1..] == pre[1..] + rest;
    if quote != '`' && pre[0] == '\\' {
      assert (pre + rest)[2..] == pre[2..] + rest;
      FailureBehindLiteral(pre[2..], quote, rest, e);
    } else if pre[0] == quote {
      FailureBehind(pre[1..], rest, e);
    } else {
      FailureBehindLiteral(pre[1..], quote, rest, e);
    }
  }

  /* Only failures are reported */

  lemma {:induction false} FailureOf(s: string) returns (pre: string, rest: string)
    requires Outer(s).Err?
    ensures s == pre + rest && Closed(pre) && FailsAt(rest, Outer(s).error)
    decreases |s|
  {
    if IsQuote(s[0]) {
      var inside, p, r := FailureInside(s[1..], s[0]);
      if inside {
        pre, rest := "", s;
      } else {
        pre, rest := [s[0]] + p, r;
        assert pre[1..] == p;
      }
    } else if OuterError(s[0], s[1..]).Some? {
      OffendsExactly(s, Outer(s).error);
      pre, rest := "", s;
    } else {
      var p, r := FailureOf(s[1..]);
      pre, rest := [s[0]] + p, r;
      assert pre[1..] == p && s == [s[0]] + s[1..];
      assert p != "" ==> p[0] == s[1];
    }
  }

  lemma {:induction false} FailureInside(s: string, quote: char) returns (inside: bool, pre: string, rest: string)
    requires Inside(s, quote).Err? && IsQuote(quote)
    ensures inside ==> NeverEnds(s, quote, Inside(s, quote).error)
    ensures !inside ==> s == pre + rest && ClosedInside(pre, quote) && FailsAt(rest, Inside(s, quote).error)
    decreases |s|
  {
    if s == "" || (quote != '`' && s == "\\") {
      inside, pre, rest := true, "", "";
    } else if quote != '`' && s[0] == '\\' {
      inside, pre, rest := FailureInside(s[2..], quote);
      if inside { SkippedPair(s, quote, Inside(s, quote).error); }
      pre := s[..2] + pre;
      assert !inside ==> pre[2..] == s[2..][..|pre| - 2];
    } else if s[0] == quote {
      inside := false;
      pre, rest := FailureOf(s[1..]);
      pre := [s[0]] + pre;
      assert pre[1..] == s[1..][..|pre| - 1];
    } else {
      inside, pre, rest := FailureInside(s[1..], quote);
      if inside { SkippedChar(s, quote, Inside(s, quote).error); }
      pre := [s[0]] + pre;
      assert !inside ==> pre[1..] == s[1..][..|pre| - 1];
    }
  }

  lemma SkippedPair(s: string, quote: char, e: SqlError)
    requires quote != '`' && |s| >= 2 && s[0] == '\\' && NeverEnds(s[2..], quote, e)
    ensures NeverEnds(s, quote, e)
  {
    if !LiteralBody(s[2..], quote) || e != Unclosed {
      assert s[..|s| - 1][2..] == s[2..][..|s| - 3];
    }
  }

  lemma SkippedChar(s: string, quote: char, e: SqlError)
    requires s != "" && s[0] != quote && !(quote != '`' && s[0] == '\\') && NeverEnds(s[1..], quote, e)
    ensures NeverEnds(s, quote, e)
  {
    if !LiteralBody(s[1..], quote) || e != Unclosed {
      assert s[..|s| - 1][1..] == s[1..][..|s| - 2];
    }
  }

  /** A statement is refused with an error exactly if some part of it is in order and
      that error stands behind it. */
  lemma ErrorsExactly(s: string, e: SqlError)
    ensures Normalize(s) == Err(e) <==> exists pre, rest :: s == pre + rest && Closed(pre) && FailsAt(rest, e)
  {
    if Normalize(s) == Err(e) {
      var pre, rest := FailureOf(s);
    }
    forall pre, rest | s == pre + rest && Closed(pre) && FailsAt(rest, e) ensures Normalize(s) == Err(e) {
      FailureBehind(pre, rest, e);
    }
  }
}
