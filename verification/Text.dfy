/** Strings as the Go code sees them: white space, fields, decimal numbers.

    A string is a sequence of Unicode characters. `ByteLen` is its length in
    UTF-8, which is what Go's `len` returns. */
module Text {

  datatype Option<+T> = None | Some(value: T)

  /* White space and fields */

  /** unicode.IsSpace */
  predicate IsSpace(c: char) {
    var u := c as int;
    || 9 <= u <= 13 || u == 0x20 || u == 0x85 || u == 0xA0 || u == 0x1680
    || 0x2000 <= u <= 0x200A || u == 0x2028 || u == 0x2029 || u == 0x202F || u == 0x205F || u == 0x3000
  }

  predicate SpaceFree(s: string) {
    forall i :: 0 <= i < |s| ==> !IsSpace(s[i])
  }

  predicate Word(s: string) {
    s != "" && SpaceFree(s)
  }

  function Flush(word: string): seq<string> {
    if word == "" then [] else [word]
  }

  /** strings.Fields of `word + s`, when `word` is the part of a field already read. */
  function FieldsFrom(word: string, s: string): seq<string>
    decreases |s|
  {
    if s == "" then Flush(word)
    else if IsSpace(s[0]) then Flush(word) + FieldsFrom("", s[1..])
    else FieldsFrom(word + [s[0]], s[1..])
  }

  function Fields(s: string): seq<string> {
    FieldsFrom("", s)
  }

  /** strings.Join(words, " ") */
  function Join(words: seq<string>): string {
    if |words| == 0 then ""
    else if |words| == 1 then words[0]
    else words[0] + " " + Join(words[1..])
  }

  /** The idiom strings.Join(strings.Fields(s), " "). */
  function Collapse(s: string): string {
    Join(Fields(s))
  }

  predicate Words(words: seq<string>) {
    forall i :: 0 <= i < |words| ==> Word(words[i])
  }

  lemma {:induction false} FieldsAreWords(word: string, s: string)
    requires SpaceFree(word)
    ensures Words(FieldsFrom(word, s))
    decreases |s|
  {
    if s != "" {
      if IsSpace(s[0]) {
        FieldsAreWords("", s[1..]);
      } else {
        FieldsAreWords(word + [s[0]], s[1..]);
      }
    }
  }

  lemma {:induction false} FieldsOfWord(word: string, w: string, rest: string)
    requires SpaceFree(w)
    ensures FieldsFrom(word, w + rest) == FieldsFrom(word + w, rest)
    decreases |w|
  {
    if w == "" {
      assert w + rest == rest && word + w == word;
    } else {
      assert (w + rest)[1..] == w[1..] + rest;
      assert (word + [w[0]]) + w[1..] == word + w;
      FieldsOfWord(word + [w[0]], w[1..], rest);
    }
  }

  lemma FieldsOfBlank(word: string, rest: string)
    ensures FieldsFrom(word, " " + rest) == Flush(word) + FieldsFrom("", rest)
  {
    assert (" " + rest)[1..] == rest;
  }

  /** Joining words with blanks and splitting again gives the words back. */
  lemma {:induction false} FieldsOfJoin(words: seq<string>)
    requires Words(words)
    ensures Fields(Join(words)) == words
  {
    if |words| == 0 {
    } else if |words| == 1 {
      assert words[0] + "" == words[0];
      FieldsOfWord("", words[0], "");
      assert "" + words[0] == words[0];
      assert words == [words[0]];
    } else {
      var tail := Join(words[1..]);
      assert Join(words) == words[0] + (" " + tail);
      FieldsOfWord("", words[0], " " + tail);
      assert "" + words[0] == words[0];
      FieldsOfBlank(words[0], tail);
      FieldsOfJoin(words[1..]);
      assert words == [words[0]] + words[1..];
    }
  }

  lemma CollapseIdempotent(s: string)
    ensures Collapse(Collapse(s)) == Collapse(s)
  {
    FieldsAreWords("", s);
    FieldsOfJoin(Fields(s));
  }

  /* strings.TrimSpace */

  function TrimLeft(s: string): (r: string)
    ensures |r| <= |s|
  {
    if s != "" && IsSpace(s[0]) then TrimLeft(s[1..]) else s
  }

  function TrimRight(s: string): (r: string)
    ensures |r| <= |s|
  {
    if s != "" && IsSpace(s[|s| - 1]) then TrimRight(s[..|s| - 1]) else s
  }

  function TrimSpace(s: string): string {
    TrimRight(TrimLeft(s))
  }

  /** Trimming around a character that is not white space. */
  lemma {:induction false} TrimLeftKeeps(pre: string, rest: string)
    requires rest != "" && !IsSpace(rest[0])
    ensures TrimLeft(pre + rest) == TrimLeft(pre) + rest
  {
    if pre != "" && IsSpace(pre[0]) {
      assert (pre + rest)[1..] == pre[1..] + rest;
      TrimLeftKeeps(pre[1..], rest);
    } else if pre == "" {
      assert pre + rest == rest;
    }
  }

  lemma {:induction false} TrimRightKeeps(rest: string, post: string)
    requires rest != "" && !IsSpace(rest[|rest| - 1])
    ensures TrimRight(rest + post) == rest + TrimRight(post)
  {
    if post != "" && IsSpace(post[|post| - 1]) {
      assert (rest + post)[..|rest + post| - 1] == rest + post[..|post| - 1];
      TrimRightKeeps(rest, post[..|post| - 1]);
    } else if post == "" {
      assert rest + post == rest;
    }
  }

  /* Lengths and substrings */

  function Utf8Size(c: char): nat {
    var u := c as int;
    if u < 0x80 then 1 else if u < 0x800 then 2 else if u < 0x10000 then 3 else 4
  }

  function ByteLen(s: string): nat {
    if s == "" then 0 else Utf8Size(s[0]) + ByteLen(s[1..])
  }

  lemma {:induction false} ByteLenOfSum(a: string, b: string)
    ensures ByteLen(a + b) == ByteLen(a) + ByteLen(b)
  {
    if a == "" {
      assert a + b == b;
    } else {
      assert (a + b)[1..] == a[1..] + b;
      ByteLenOfSum(a[1..], b);
    }
  }

  lemma {:induction false} ByteLenAtLeast(s: string)
    ensures |s| <= ByteLen(s)
  {
    if s != "" {
      ByteLenAtLeast(s[1..]);
    }
  }

  lemma {:induction false} ByteLenBound(s: string)
    ensures ByteLen(s) <= 4 * |s|
  {
    if s != "" {
      ByteLenBound(s[1..]);
    }
  }

  /** Collapsing loses nothing but white space. */
  lemma {:induction false} CollapseKeeps(word: string, s: string, c: char)
    requires !IsSpace(c) && c in word + s
    ensures c in Join(FieldsFrom(word, s))
    decreases |s|
  {
    if s == "" {
      assert word + s == word;
    } else if IsSpace(s[0]) {
      assert word + s == word + [s[0]] + s[1..];
      if c in s[1..] {
        assert "" + s[1..] == s[1..];
        CollapseKeeps("", s[1..], c);
      }
      var rest := FieldsFrom("", s[1..]);
      if word != "" && |rest| > 0 {
        assert (Flush(word) + rest)[1..] == rest;
      } else if word == "" {
        assert Flush(word) + rest == rest;
      } else {
        assert Flush(word) + rest == [word];
      }
    } else {
      assert (word + [s[0]]) + s[1..] == word + s;
      CollapseKeeps(word + [s[0]], s[1..], c);
    }
  }

  predicate HasPrefix(s: string, p: string) {
    |p| <= |s| && s[..|p|] == p
  }

  predicate Occurs(s: string, p: string, i: nat) {
    i + |p| <= |s| && s[i..i + |p|] == p
  }

  /** strings.Contains, bytes.Contains */
  predicate Contains(s: string, p: string) {
    exists i: nat :: i <= |s| && Occurs(s, p, i)
  }

  lemma ContainsInMiddle(a: string, p: string, b: string)
    ensures Contains(a + p + b, p)
  {
    assert Occurs(a + p + b, p, |a|);
  }

  lemma ContainsMonotone(s: string, a: string, b: string, p: string)
    requires Contains(s, p)
    ensures Contains(a + s + b, p)
  {
    var i: nat :| i <= |s| && Occurs(s, p, i);
    var t := a + s + b;
    assert t[|a| + i..|a| + i + |p|] == s[i..i + |p|];
    assert Occurs(t, p, |a| + i);
  }

  /* Decimal numbers */

  predicate IsDigit(c: char) {
    '0' <= c <= '9'
  }

  predicate AllDigits(s: string) {
    forall i :: 0 <= i < |s| ==> IsDigit(s[i])
  }

  function DigitValue(c: char): nat
    requires IsDigit(c)
  {
    (c as int) - ('0' as int)
  }

  function DigitChar(d: nat): (c: char)
    requires d < 10
    ensures IsDigit(c) && DigitValue(c) == d
  {
    (('0' as int) + d) as char
  }

  function Value(s: string): nat
    requires AllDigits(s)
  {
    if s == "" then 0 else Value(s[..|s| - 1]) * 10 + DigitValue(s[|s| - 1])
  }

  /** strconv.Itoa, fmt.Sprint and "%d" on numbers that are not negative. */
  function Decimal(n: nat): (s: string)
    ensures s != "" && AllDigits(s)
    decreases n
  {
    if n < 10 then [DigitChar(n)] else Decimal(n / 10) + [DigitChar(n % 10)]
  }

  lemma {:induction false} ValueOfDecimal(n: nat)
    ensures Value(Decimal(n)) == n
    decreases n
  {
    var s := Decimal(n);
    if n < 10 {
      assert s[..|s| - 1] == "";
    } else {
      assert s[..|s| - 1] == Decimal(n / 10);
      ValueOfDecimal(n / 10);
    }
  }

  lemma {:induction false} DecimalHasNoLeadingZero(n: nat)
    requires n > 0
    ensures Decimal(n)[0] != '0'
    decreases n
  {
    if n >= 10 {
      DecimalHasNoLeadingZero(n / 10);
      assert Decimal(n)[0] == Decimal(n / 10)[0];
    }
  }

  const MAX_INT: int := 0x7FFF_FFFF_FFFF_FFFF
  const MAX_UINT: int := 0xFFFF_FFFF_FFFF_FFFF

  /** strconv.Atoi for 64-bit int: an optional sign, then digits. */
  function Atoi(s: string): Option<int> {
    var negative := s != "" && s[0] == '-';
    var digits := if s != "" && (s[0] == '-' || s[0] == '+') then s[1..] else s;
    if digits == "" || !AllDigits(digits) then None
    else
      var v: int := if negative then -(Value(digits) as int) else Value(digits);
      if -MAX_INT - 1 <= v <= MAX_INT then Some(v) else None
  }

  /** strconv.ParseUint(s, 10, 64): digits only, no sign. */
  function ParseUint(s: string): Option<nat> {
    if s == "" || !AllDigits(s) || Value(s) > MAX_UINT then None else Some(Value(s))
  }

  lemma AtoiOfDecimal(n: nat)
    requires n <= MAX_INT
    ensures Atoi(Decimal(n)) == Some(n)
  {
    ValueOfDecimal(n);
    assert IsDigit(Decimal(n)[0]);
  }

  /* Case folding, as far as it can produce an ASCII letter. */

  /** unicode.ToUpper: dotless i and long s are the only characters outside
      ASCII whose upper case is an ASCII letter. */
  function Upper(c: char): char {
    if 'a' <= c <= 'z' then (c as int - 32) as char
    else if c == '\U{0131}' then 'I' else if c == '\U{017F}' then 'S' else c
  }

  /** unicode.ToLower: dotted I and the Kelvin sign fold to ASCII letters. */
  function Lower(c: char): char {
    if 'A' <= c <= 'Z' then (c as int + 32) as char
    else if c == '\U{0130}' then 'i' else if c == '\U{212A}' then 'k' else c
  }

  function ToUpper(s: string): (r: string)
    ensures |r| == |s|
  {
    seq(|s|, i requires 0 <= i < |s| => Upper(s[i]))
  }

  function ToLower(s: string): (r: string)
    ensures |r| == |s|
  {
    seq(|s|, i requires 0 <= i < |s| => Lower(s[i]))
  }
}
