/** What the string functions of `Text` mean. */
module TextLaws {
  import opened Text

  predicate AllSpace(s: string) {
    forall i :: 0 <= i < |s| ==> IsSpace(s[i])
  }

  predicate StartsTrimmed(s: string) {
    s != "" ==> !IsSpace(s[0])
  }

  predicate EndsTrimmed(s: string) {
    s != "" ==> !IsSpace(s[|s| - 1])
  }

  lemma SpaceInFront(c: char, more: string, rest: string)
    requires IsSpace(c) && AllSpace(more)
    ensures AllSpace([c] + more) && [c] + (more + rest) == [c] + more + rest
  {
  }

  lemma SpaceBehind(c: char, more: string, rest: string)
    requires IsSpace(c) && AllSpace(more)
    ensures AllSpace(more + [c]) && rest + more + [c] == rest + (more + [c])
  {
  }

  lemma {:induction false} TrimLeftMeans(s: string) returns (a: string)
    ensures AllSpace(a) && s == a + TrimLeft(s) && StartsTrimmed(TrimLeft(s))
  {
    a := "";
    if s != "" && IsSpace(s[0]) {
      var rest := s[1..];
      assert s == [s[0]] + rest && TrimLeft(s) == TrimLeft(rest);
      a := TrimLeftMeans(rest);
      SpaceInFront(s[0], a, TrimLeft(rest));
      a := [s[0]] + a;
    }
  }

  lemma {:induction false} TrimRightMeans(s: string) returns (b: string)
    ensures AllSpace(b) && s == TrimRight(s) + b && EndsTrimmed(TrimRight(s))
    decreases |s|
  {
    b := "";
    if s != "" && IsSpace(s[|s| - 1]) {
      var front, c := s[..|s| - 1], s[|s| - 1];
      assert s == front + [c] && TrimRight(s) == TrimRight(front);
      b := TrimRightMeans(front);
      SpaceBehind(c, b, TrimRight(front));
      b := b + [c];
    }
  }

  /** Trimming takes white space from both ends, and all of it. */
  lemma TrimSpaceMeans(s: string) returns (a: string, b: string)
    ensures AllSpace(a) && AllSpace(b) && s == a + TrimSpace(s) + b
    ensures StartsTrimmed(TrimSpace(s)) && EndsTrimmed(TrimSpace(s))
  {
    a := TrimLeftMeans(s);
    b := TrimRightMeans(TrimLeft(s));
    var t := TrimSpace(s);
    assert t != "" ==> TrimLeft(s)[0] == t[0];
  }

  /** A signed decimal number, as strconv.Atoi reads it. */
  lemma AtoiMeans(digits: string)
    requires digits != "" && AllDigits(digits)
    ensures Atoi(digits) == (if Value(digits) <= 0x7FFF_FFFF_FFFF_FFFF then Some(Value(digits)) else None)
    ensures Atoi("+" + digits) == Atoi(digits)
    ensures Atoi("-" + digits)
         == (if Value(digits) <= 0x8000_0000_0000_0000 then Some(-(Value(digits) as int)) else None)
    ensures ParseUint(digits) == (if Value(digits) <= 0xFFFF_FFFF_FFFF_FFFF then Some(Value(digits)) else None)
  {
    assert IsDigit(digits[0]);
    assert ("+" + digits)[1..] == digits && ("-" + digits)[1..] == digits;
  }

  /** Nothing else is a number. */
  lemma AtoiOnly(s: string)
    requires Atoi(s).Some?
    ensures s != "" && (s[0] == '+' || s[0] == '-' || IsDigit(s[0]))
    ensures AllDigits(s[1..]) && (!IsDigit(s[0]) ==> |s| > 1)
  {
  }

  /** Letters change their case and nothing else in ASCII does. */
  lemma CaseMeans(c: char)
    requires c < 128 as char
    ensures 'a' <= c <= 'z' ==> 'A' <= Upper(c) <= 'Z' && Lower(Upper(c)) == c
    ensures 'A' <= c <= 'Z' ==> 'a' <= Lower(c) <= 'z' && Upper(Lower(c)) == c
    ensures !('a' <= c <= 'z') ==> Upper(c) == c
    ensures !('A' <= c <= 'Z') ==> Lower(c) == c
  {
  }

  /** A part of a text. */
  lemma ContainsMeans(s: string, p: string)
    ensures Contains(s, p) <==> exists a, b :: s == a + p + b
  {
    if Contains(s, p) {
      var i: nat :| i <= |s| && Occurs(s, p, i);
      assert s == s[..i] + p + s[i + |p|..];
    }
    forall a, b | s == a + p + b ensures Contains(s, p) {
      ContainsInMiddle(a, p, b);
    }
  }
}
