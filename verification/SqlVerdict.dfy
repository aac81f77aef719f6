/** The read-only SQL policy of internal/testdb/validator.go: its verdict, and each of
    its checks for itself. The three regular expressions and the letter/digit classes
    stay uninterpreted. */
module SqlVerdict {
  import opened Text
  import opened SqlScanners

  datatype Patterns = Patterns(
    letterOrDigit: char -> bool,
    forbidden: string -> bool,
    suspicious: string -> bool,
    limitClause: string -> bool)

  datatype Verdict =
    | Accepted
    | Empty
    | TooLong
    | NullByte
    | TwoStatements
    | Rejected(error: SqlError)
    | DisallowedCharacter
    | PrefixNotAllowed
    | Forbidden
    | Suspicious
    | NoLimit

  const MAX_SQL_LENGTH := 8192
  const PUNCTUATION := "_.,'\"`()-=<>+*/%|&^~[]?:@"
  const ALLOWED_PREFIXES := ["SELECT", "SHOW", "DESCRIBE", "DESC", "EXPLAIN", "WITH"]

  /** strings.TrimSuffix(s, ";") */
  function TrimSemicolon(s: string): string {
    if s != "" && s[|s| - 1] == ';' then s[..|s| - 1] else s
  }

  function Body(statement: string): string {
    TrimSemicolon(TrimSpace(statement))
  }

  /** The checks made on the raw text, before any literal is removed. */
  function RawVerdict(statement: string): Verdict {
    var s := TrimSpace(statement);
    if s == "" then Empty
    else if ByteLen(s) > MAX_SQL_LENGTH then TooLong
    else if '\0' in s then NullByte
    else if ';' in TrimSemicolon(s) then TwoStatements
    else Accepted
  }

  predicate AllowedCharacter(c: char, p: Patterns) {
    p.letterOrDigit(c) || c == ' ' || c == '\t' || c == '\n' || c == '\r' || c in PUNCTUATION
  }

  predicate MatchesPrefix(upper: string, prefix: string) {
    upper == prefix || HasPrefix(upper, prefix + " ")
  }

  predicate PrefixAllowed(upper: string) {
    exists i :: 0 <= i < |ALLOWED_PREFIXES| && MatchesPrefix(upper, ALLOWED_PREFIXES[i])
  }

  /** The checks made on the normalised text only. */
  function TextVerdict(normalized: string, p: Patterns): Verdict {
    var upper := ToUpper(TrimSpace(normalized));
    if exists i :: 0 <= i < |normalized| && !AllowedCharacter(normalized[i], p) then DisallowedCharacter
    else if !PrefixAllowed(upper) then PrefixNotAllowed
    else if p.forbidden(normalized) then Forbidden
    else if p.suspicious(normalized) then Suspicious
    else if (HasPrefix(upper, "SELECT") || HasPrefix(upper, "WITH")) && !p.limitClause(normalized) then NoLimit
    else Accepted
  }

  function Validate(statement: string, p: Patterns): Verdict {
    var raw := RawVerdict(statement);
    if raw != Accepted then raw
    else match Normalize(Body(statement))
      case Err(e) => Rejected(e)
      case Ok(normalized) => TextVerdict(normalized, p)
  }

  /** rejectDisallowedCharacters */
  method HasDisallowedCharacter(text: string, p: Patterns) returns (found: bool)
    ensures found <==> exists i :: 0 <= i < |text| && !AllowedCharacter(text[i], p)
  {
    for i := 0 to |text|
      invariant forall j :: 0 <= j < i ==> AllowedCharacter(text[j], p)
    {
      if !AllowedCharacter(text[i], p) {
        return true;
      }
    }
    return false;
  }

  /** hasAllowedPrefix */
  method HasAllowedPrefix(upper: string) returns (allowed: bool)
    ensures allowed <==> PrefixAllowed(upper)
  {
    for k := 0 to |ALLOWED_PREFIXES|
      invariant forall i :: 0 <= i < k ==> !MatchesPrefix(upper, ALLOWED_PREFIXES[i])
    {
      if MatchesPrefix(upper, ALLOWED_PREFIXES[k]) {
        return true;
      }
    }
    return false;
  }

  /** The second half of ValidateReadOnlySQL. */
  method CheckText(normalized: string, p: Patterns) returns (v: Verdict)
    ensures v == TextVerdict(normalized, p)
    ensures normalized == Collapse(normalized) ==> FirstTextFailure(v, normalized, p)
  {
    if normalized == Collapse(normalized) {
      TextVerdictExactly(normalized, p);
    }
    var disallowed := HasDisallowedCharacter(normalized, p);
    if disallowed {
      return DisallowedCharacter;
    }
    var upper := ToUpper(TrimSpace(normalized));
    var allowed := HasAllowedPrefix(upper);
    if !allowed {
      return PrefixNotAllowed;
    }
    if p.forbidden(normalized) {
      return Forbidden;
    }
    if p.suspicious(normalized) {
      return Suspicious;
    }
    if (HasPrefix(upper, "SELECT") || HasPrefix(upper, "WITH")) && !p.limitClause(normalized) {
      return NoLimit;
    }
    return Accepted;
  }

  /** ValidateReadOnlySQL */
  method ValidateReadOnlySQL(statement: string, p: Patterns) returns (v: Verdict)
    ensures v == Validate(statement, p) && FirstFailure(v, statement, p)
  {
    VerdictExactly(statement, p);
    var s := TrimSpace(statement);
    if s == "" {
      return Empty;
    }
    if ByteLen(s) > MAX_SQL_LENGTH {
      return TooLong;
    }
    if '\0' in s {
      return NullByte;
    }
    var trimmed := TrimSemicolon(s);
    if ';' in trimmed {
      return TwoStatements;
    }
    var scan := NormalizeForValidation(trimmed);
    if scan.Err? {
      return Rejected(scan.error);
    }
    v := CheckText(scan.text, p);
  }

  /* The verdict check by check */

  /** The first word of a text, in upper case. */
  function FirstWord(text: string): string {
    if Fields(text) == [] then "" else ToUpper(Fields(text)[0])
  }

  /** The checks on the normalised text, each for itself. */
  ghost predicate TextFails(check: Verdict, text: string, p: Patterns) {
    match check
    case DisallowedCharacter =>
      exists c :: c in text && !p.letterOrDigit(c) && c !in " \t\n\r_.,'\"`()-=<>+*/%|&^~[]?:@"
    case PrefixNotAllowed => FirstWord(text) !in {"SELECT", "SHOW", "DESCRIBE", "DESC", "EXPLAIN", "WITH"}
    case Forbidden => p.forbidden(text)
    case Suspicious => p.suspicious(text)
    case NoLimit => FirstWord(text) in {"SELECT", "WITH"} && !p.limitClause(text)
    case _ => false
  }

  /** All checks, on the trimmed statement and what it normalises to. */
  ghost predicate Fails(check: Verdict, statement: string, p: Patterns) {
    match check
    case Empty => TrimSpace(statement) == ""
    case TooLong => ByteLen(TrimSpace(statement)) > 8192
    case NullByte => '\0' in TrimSpace(statement)
    case TwoStatements =>
      exists i :: 0 <= i < |TrimSpace(statement)| - 1 && TrimSpace(statement)[i] == ';'
    case Rejected(e) => Normalize(Body(statement)) == Err(e)
    case _ => Normalize(Body(statement)).Ok? && TextFails(check, Normalize(Body(statement)).text, p)
  }

  /** Their order. */
  function Rank(check: Verdict): nat {
    match check
    case Empty => 0
    case TooLong => 1
    case NullByte => 2
    case TwoStatements => 3
    case Rejected(_) => 4
    case DisallowedCharacter => 5
    case PrefixNotAllowed => 6
    case Forbidden => 7
    case Suspicious => 8
    case NoLimit => 9
    case Accepted => 10
  }

  /** The verdict is the first check that fails; accepted means that none does. */
  ghost predicate FirstTextFailure(v: Verdict, text: string, p: Patterns) {
    (v == Accepted || TextFails(v, text, p)) && forall u :: Rank(u) < Rank(v) ==> !TextFails(u, text, p)
  }

  ghost predicate FirstFailure(v: Verdict, statement: string, p: Patterns) {
    (v == Accepted || Fails(v, statement, p)) && forall u :: Rank(u) < Rank(v) ==> !Fails(u, statement, p)
  }

  /* Words */

  predicate NoBlank(s: string) {
    forall i :: 0 <= i < |s| ==> s[i] != ' '
  }

  /** A keyword and a blank in front of a text are its first word. */
  lemma BlankEndsWord(a: string, r: string, w: string)
    requires NoBlank(a) && NoBlank(w)
    ensures HasPrefix(a + " " + r, w + " ") <==> a == w
  {
    FirstBlankIsThere(a + " " + r, w);
    assert (a + " " + r)[|a|] == ' ';
    if a == w {
      assert (a + " " + r)[..|w| + 1] == w + " ";
    }
  }

  lemma FirstBlankIsThere(s: string, w: string)
    requires NoBlank(w)
    ensures HasPrefix(s, w + " ") ==> |w| < |s| && s[|w|] == ' ' && forall k :: 0 <= k < |w| ==> s[k] == w[k] != ' '
  {
    if HasPrefix(s, w + " ") {
      assert forall k :: 0 <= k <= |w| ==> s[k] == s[..|w| + 1][k] == (w + " ")[k];
    }
  }

  lemma UpperHasNoBlank(w: string)
    requires SpaceFree(w)
    ensures NoBlank(ToUpper(w))
  {
    assert forall i :: 0 <= i < |w| ==> ToUpper(w)[i] == Upper(w[i]);
  }

  /** Some words joined are a first word and the rest. */
  lemma JoinedWords(words: seq<string>) returns (r: string)
    requires Words(words) && words != []
    ensures Join(words) == if |words| == 1 then words[0] else words[0] + " " + r
    ensures TrimSpace(Join(words)) == Join(words)
  {
    r := if |words| == 1 then "" else Join(words[1..]);
    JoinEndsInWord(words);
  }

  lemma {:induction false} JoinEndsInWord(words: seq<string>)
    requires Words(words) && words != []
    ensures Join(words) != "" && !IsSpace(Join(words)[0]) && !IsSpace(Join(words)[|Join(words)| - 1])
  {
    if |words| > 1 {
      JoinEndsInWord(words[1..]);
    }
  }

  /** The prefix test on a collapsed text is a test of its first word. */
  lemma PrefixMeans(text: string)
    requires text == Collapse(text)
    ensures PrefixAllowed(ToUpper(TrimSpace(text)))
       <==> FirstWord(text) in {"SELECT", "SHOW", "DESCRIBE", "DESC", "EXPLAIN", "WITH"}
  {
    FieldsAreWords("", text);
    if Fields(text) == [] {
      assert TrimSpace("") == "";
      assert forall i :: 0 <= i < |ALLOWED_PREFIXES| ==> !MatchesPrefix("", ALLOWED_PREFIXES[i]);
    } else {
      var first := Fields(text)[0];
      var r := JoinedWords(Fields(text));
      UpperHasNoBlank(first);
      forall i | 0 <= i < |ALLOWED_PREFIXES|
        ensures MatchesPrefix(ToUpper(TrimSpace(text)), ALLOWED_PREFIXES[i]) <==> ToUpper(first) == ALLOWED_PREFIXES[i]
      {
        KeywordMatches(text, first, r, ALLOWED_PREFIXES[i]);
      }
      SixKeywords(FirstWord(text));
    }
  }

  lemma SixKeywords(w: string)
    ensures w in {"SELECT", "SHOW", "DESCRIBE", "DESC", "EXPLAIN", "WITH"}
       <==> exists i :: 0 <= i < |ALLOWED_PREFIXES| && w == ALLOWED_PREFIXES[i]
  {
    if w in {"SELECT", "SHOW", "DESCRIBE", "DESC", "EXPLAIN", "WITH"} {
      assert w == ALLOWED_PREFIXES[0] || w == ALLOWED_PREFIXES[1] || w == ALLOWED_PREFIXES[2]
          || w == ALLOWED_PREFIXES[3] || w == ALLOWED_PREFIXES[4] || w == ALLOWED_PREFIXES[5];
    }
  }

  lemma KeywordMatches(text: string, first: string, r: string, w: string)
    requires text == first || text == first + " " + r
    requires TrimSpace(text) == text && NoBlank(ToUpper(first)) && NoBlank(w) && w != ""
    ensures MatchesPrefix(ToUpper(TrimSpace(text)), w) <==> ToUpper(first) == w
  {
    var u := ToUpper(first);
    if text == first {
      FirstBlankIsThere(u, w);
    } else {
      assert ToUpper(text) == u + " " + ToUpper(r);
      BlankEndsWord(u, ToUpper(r), w);
      assert (u + " " + ToUpper(r))[|u|] == ' ';
    }
  }

  /** Among the allowed texts, those that start with SELECT or WITH have it as a word. */
  lemma BoundedMeans(text: string)
    requires text == Collapse(text)
    requires FirstWord(text) in {"SELECT", "SHOW", "DESCRIBE", "DESC", "EXPLAIN", "WITH"}
    ensures HasPrefix(ToUpper(TrimSpace(text)), "SELECT") || HasPrefix(ToUpper(TrimSpace(text)), "WITH")
       <==> FirstWord(text) in {"SELECT", "WITH"}
  {
    FieldsAreWords("", text);
    var first := Fields(text)[0];
    var r := JoinedWords(Fields(text));
    var u := ToUpper(first);
    assert |u| >= 4 && ToUpper(text)[..|u|] == u;
    assert ToUpper(text)[0] == u[0] && ToUpper(text)[1] == u[1];
    assert HasPrefix(ToUpper(text), "SELECT") ==> ToUpper(text)[..6][1] == 'E' && ToUpper(text)[..6][0] == 'S';
    assert HasPrefix(ToUpper(text), "WITH") ==> ToUpper(text)[..4][0] == 'W';
    assert u == "SELECT" ==> |u| == 6;
    assert u == "WITH" ==> |u| == 4;
  }

  /* The verdicts */

  lemma CharactersMean(text: string, p: Patterns)
    ensures (exists i :: 0 <= i < |text| && !AllowedCharacter(text[i], p)) <==> TextFails(DisallowedCharacter, text, p)
  {
    forall c ensures AllowedCharacter(c, p) <==>
        p.letterOrDigit(c) || c in " \t\n\r_.,'\"`()-=<>+*/%|&^~[]?:@"
    {
      assert " \t\n\r_.,'\"`()-=<>+*/%|&^~[]?:@" == " \t\n\r" + PUNCTUATION;
    }
    if exists i :: 0 <= i < |text| && !AllowedCharacter(text[i], p) {
      var i :| 0 <= i < |text| && !AllowedCharacter(text[i], p);
      assert text[i] in text;
    }
  }

  /** The verdict on a normalised text is the first check that fails. */
  lemma TextVerdictExactly(text: string, p: Patterns)
    requires text == Collapse(text)
    ensures FirstTextFailure(TextVerdict(text, p), text, p)
  {
    CharactersMean(text, p);
    PrefixMeans(text);
    if PrefixAllowed(ToUpper(TrimSpace(text))) {
      BoundedMeans(text);
    }
  }

  lemma SemicolonsMean(t: string)
    ensures ';' in TrimSemicolon(t) <==> exists i :: 0 <= i < |t| - 1 && t[i] == ';'
  {
    if t != "" && t[|t| - 1] == ';' {
      assert forall i :: 0 <= i < |t| - 1 ==> t[..|t| - 1][i] == t[i];
    } else if ';' in t {
      var i :| 0 <= i < |t| && t[i] == ';';
      assert i < |t| - 1;
    }
  }

  lemma RawVerdictExactly(statement: string, p: Patterns)
    ensures RawVerdict(statement) == Accepted <==> forall u :: Rank(u) < 4 ==> !Fails(u, statement, p)
    ensures RawVerdict(statement) != Accepted ==>
        Rank(RawVerdict(statement)) < 4 && FirstFailure(RawVerdict(statement), statement, p)
  {
    SemicolonsMean(TrimSpace(statement));
    var v := RawVerdict(statement);
    assert v == Accepted ==> !Fails(Empty, statement, p) && !Fails(TooLong, statement, p)
                             && !Fails(NullByte, statement, p) && !Fails(TwoStatements, statement, p);
    assert v != Accepted ==> Fails(v, statement, p);
  }

  /** The verdict on a statement is the first check that fails. */
  lemma VerdictExactly(statement: string, p: Patterns)
    ensures FirstFailure(Validate(statement, p), statement, p)
  {
    RawVerdictExactly(statement, p);
    var n := Normalize(Body(statement));
    if RawVerdict(statement) == Accepted && n.Ok? {
      CollapseIdempotent(Outer(Body(statement)).text);
      TextVerdictExactly(n.text, p);
      var v := TextVerdict(n.text, p);
      forall u | Rank(u) < Rank(v) ensures !Fails(u, statement, p) {
        if Rank(u) > 4 {
          assert !TextFails(u, n.text, p);
        }
      }
    }
  }

  /** Accepted are exactly the statements that no check refuses. */
  lemma AcceptedExactly(statement: string, p: Patterns)
    ensures Validate(statement, p) == Accepted <==> forall u :: u != Accepted ==> !Fails(u, statement, p)
  {
    VerdictExactly(statement, p);
    if Validate(statement, p) == Accepted {
      forall u | u != Accepted ensures !Fails(u, statement, p) {
        assert Rank(u) < Rank(Accepted);
      }
    }
  }

  /** What acceptance guarantees about the text that the database patterns see: one
      statement of an allowed kind, without quotes, comments or escapes, and bounded
      if it selects. */
  lemma AcceptedText(s: string, p: Patterns)
    requires Validate(s, p) == Accepted
    ensures Normalize(Body(s)).Ok? && Clean(Normalize(Body(s)).text) && NoQuotes(Normalize(Body(s)).text)
    ensures Normalize(Normalize(Body(s)).text) == Normalize(Body(s))
    ensures PrefixAllowed(ToUpper(TrimSpace(Normalize(Body(s)).text)))
    ensures !p.forbidden(Normalize(Body(s)).text) && !p.suspicious(Normalize(Body(s)).text)
    ensures HasPrefix(ToUpper(TrimSpace(Normalize(Body(s)).text)), "SELECT") ==> p.limitClause(Normalize(Body(s)).text)
  {
    NormalizedIsClean(Body(s));
    NormalizeIdempotent(Body(s));
  }
}
