/** The bounded log of a deployment task: `appendTaskLog` in
    internal/testdeploy/manager.go. */
module LogWindow {
  import opened Text

  const MAX_LINES: nat := 40
  const MAX_BYTES: nat := 8192
  const MAX_LINE_BYTES: nat := 1024

  /** The longest prefix of at most `limit` bytes that ends between characters. */
  function TakeBytes(s: string, limit: nat): (r: string)
    ensures r <= s && ByteLen(r) <= limit
    ensures r == s || ByteLen(r) + Utf8Size(s[|r|]) > limit
    decreases |s|
  {
    if s == "" || Utf8Size(s[0]) > limit then ""
    else [s[0]] + TakeBytes(s[1..], limit - Utf8Size(s[0]))
  }

  /** truncateText */
  function Truncate(s: string, limit: nat): (r: string)
    ensures ByteLen(r) <= limit + 3
    ensures ByteLen(s) <= limit ==> r == s
    ensures ByteLen(s) > limit ==> r != "" && r[..|r| - 1] < s && r[|r| - 1] == '\U{2026}'
  {
    if ByteLen(s) <= limit then s
    else
      ByteLenOfSum(TakeBytes(s, limit), "\U{2026}");
      TakeBytes(s, limit) + "\U{2026}"
  }

  function Clip(line: string): string {
    Truncate(TrimSpace(line), MAX_LINE_BYTES)
  }

  /** The lines that one call adds to the full history: none or one. */
  function Stored(line: string): seq<string> {
    if Clip(line) == "" then [] else [Clip(line)]
  }

  /** taskLogBytes */
  function LogBytes(lines: seq<string>): nat {
    if lines == [] then 0 else ByteLen(lines[0]) + LogBytes(lines[1..])
  }

  function LastLines(lines: seq<string>): seq<string> {
    if |lines| > MAX_LINES then lines[|lines| - MAX_LINES..] else lines
  }

  function DropBytes(lines: seq<string>): seq<string> {
    if |lines| > 1 && LogBytes(lines) > MAX_BYTES then DropBytes(lines[1..]) else lines
  }

  function Append(logs: seq<string>, line: string): seq<string> {
    if Stored(line) == [] then logs else DropBytes(LastLines(logs + Stored(line)))
  }

  /** appendTaskLog */
  method AppendTaskLog(logs: seq<string>, line: string) returns (r: seq<string>)
    ensures r == Append(logs, line)
  {
    var clipped := Clip(line);
    if clipped == "" {
      return logs;
    }
    r := logs + [clipped];
    if |r| > MAX_LINES {
      r := r[|r| - MAX_LINES..];
    }
    while LogBytes(r) > MAX_BYTES && |r| > 1
      invariant DropBytes(r) == Append(logs, line)
      decreases |r|
    {
      r := r[1..];
    }
  }

  /* The window over the full history */

  predicate Fits(lines: seq<string>) {
    |lines| <= MAX_LINES && LogBytes(lines) <= MAX_BYTES
  }

  /** What one call stores: the trimmed line, or as much of it as fits 1024 bytes with
      an ellipsis behind it, and nothing for a blank line. */
  lemma StoredMeans(line: string)
    ensures TrimSpace(line) == "" ==> Stored(line) == []
    ensures TrimSpace(line) != "" && ByteLen(TrimSpace(line)) <= 1024 ==> Stored(line) == [TrimSpace(line)]
    ensures ByteLen(TrimSpace(line)) > 1024 ==>
        Stored(line) == [TakeBytes(TrimSpace(line), 1024) + "\U{2026}"]
  {
  }

  /** `w` is the longest suffix of `all` that fits, and starts at `k`. */
  ghost predicate WindowAt(w: seq<string>, all: seq<string>, k: nat) {
    && k <= |all| && w == all[k..] && Fits(w)
    && forall j :: 0 <= j < k ==> !Fits(all[j..])
  }

  ghost predicate IsWindow(w: seq<string>, all: seq<string>) {
    exists k: nat :: WindowAt(w, all, k)
  }

  lemma {:induction false} LogBytesAppend(a: seq<string>, x: string)
    ensures LogBytes(a + [x]) == LogBytes(a) + ByteLen(x)
  {
    if a == [] {
      assert a + [x] == [x];
    } else {
      assert (a + [x])[1..] == a[1..] + [x];
      LogBytesAppend(a[1..], x);
    }
  }

  /** The trimming loop drops from the front only what cannot fit. */
  lemma {:induction false} DropBytesWindow(all: seq<string>, k: nat)
    requires k < |all| && |all| - k <= MAX_LINES
    requires ByteLen(all[|all| - 1]) <= MAX_BYTES
    requires forall j :: 0 <= j < k ==> !Fits(all[j..])
    ensures IsWindow(DropBytes(all[k..]), all)
    decreases |all| - k
  {
    var w := all[k..];
    if |w| > 1 && LogBytes(w) > MAX_BYTES {
      assert w[1..] == all[k + 1..];
      assert forall j :: 0 <= j < k + 1 ==> !Fits(all[j..]);
      DropBytesWindow(all, k + 1);
    } else {
      if |w| == 1 {
        assert w[1..] == [];
        assert LogBytes(w) == ByteLen(all[|all| - 1]);
      }
      assert WindowAt(w, all, k);
    }
  }

  /** One call keeps the log the longest fitting suffix of everything stored. */
  lemma AppendKeepsWindow(w: seq<string>, all: seq<string>, line: string)
    requires IsWindow(w, all)
    ensures IsWindow(Append(w, line), all + Stored(line))
  {
    var k: nat :| WindowAt(w, all, k);
    if Stored(line) == [] {
      assert all + [] == all;
    } else {
      var x := Clip(line);
      var longer := all + [x];
      assert w + [x] == longer[k..];
      LongerDoesNotFit(all, x, k);
      if |longer| - k > MAX_LINES {
        assert |longer| - MAX_LINES == k + 1;
        assert LastLines(w + [x]) == longer[k + 1..];
        DropBytesWindow(longer, k + 1);
      } else {
        DropBytesWindow(longer, k);
      }
    }
  }

  lemma LongerDoesNotFit(all: seq<string>, x: string, k: nat)
    requires k <= |all| && forall j :: 0 <= j < k ==> !Fits(all[j..])
    ensures forall j :: 0 <= j < k ==> !Fits((all + [x])[j..])
    ensures |all| + 1 - k > MAX_LINES ==> forall j :: 0 <= j < k + 1 ==> !Fits((all + [x])[j..])
  {
    forall j | 0 <= j < k ensures !Fits((all + [x])[j..]) {
      assert (all + [x])[j..] == all[j..] + [x];
      LogBytesAppend(all[j..], x);
      assert !Fits(all[j..]);
    }
    assert |(all + [x])[k..]| == |all| + 1 - k;
  }

  lemma WindowIsUnique(v: seq<string>, w: seq<string>, all: seq<string>)
    requires IsWindow(v, all) && IsWindow(w, all)
    ensures v == w
  {
    var j: nat :| WindowAt(v, all, j);
    var k: nat :| WindowAt(w, all, k);
    assert Fits(all[j..]) && Fits(all[k..]);
  }

  function History(first: seq<string>, lines: seq<string>): seq<string> {
    if lines == [] then first
    else History(first, lines[..|lines| - 1]) + Stored(lines[|lines| - 1])
  }

  function Replay(first: seq<string>, lines: seq<string>): seq<string> {
    if lines == [] then first
    else Append(Replay(first, lines[..|lines| - 1]), lines[|lines| - 1])
  }

  /** From a log that is the window of a history, any sequence of calls leads to the
      window of the longer history. */
  lemma {:induction false} ReplayKeepsWindow(w: seq<string>, all: seq<string>, lines: seq<string>)
    requires IsWindow(w, all)
    ensures IsWindow(Replay(w, lines), History(all, lines))
    decreases |lines|
  {
    if lines != [] {
      var n := |lines| - 1;
      ReplayKeepsWindow(w, all, lines[..n]);
      AppendKeepsWindow(Replay(w, lines[..n]), History(all, lines[..n]), lines[n]);
    }
  }

  /** The bounds of a window, and what it may leave out: one line more in front would
      be too many lines or too many bytes. */
  lemma WindowLimits(w: seq<string>, all: seq<string>)
    requires IsWindow(w, all)
    ensures |w| <= 40 && LogBytes(w) <= 8192 && |w| <= |all| && w == all[|all| - |w|..]
    ensures |w| < |all| ==> |w| == 40 || ByteLen(all[|all| - |w| - 1]) + LogBytes(w) > 8192
  {
    var k: nat :| WindowAt(w, all, k);
    if k > 0 {
      assert !Fits(all[k - 1..]);
      assert all[k - 1..] == [all[k - 1]] + all[k..];
    }
  }

  /** After any sequence of calls the log is the longest suffix of the full
      history with at most 40 lines and 8192 bytes. */
  lemma ReplayIsWindow(first: seq<string>, lines: seq<string>)
    requires Fits(first)
    ensures IsWindow(Replay(first, lines), History(first, lines))
  {
    assert first[0..] == first;
    assert WindowAt(first, first, 0);
    ReplayKeepsWindow(first, first, lines);
  }

  lemma {:induction false} HistoryLinesAreShort(first: seq<string>, lines: seq<string>)
    requires forall i :: 0 <= i < |first| ==> ByteLen(first[i]) <= MAX_BYTES
    ensures forall i :: 0 <= i < |History(first, lines)| ==> ByteLen(History(first, lines)[i]) <= MAX_BYTES
    decreases |lines|
  {
    if lines != [] {
      HistoryLinesAreShort(first, lines[..|lines| - 1]);
    }
  }

  /** Trimming after every call gives what trimming the full history once gives. */
  lemma TrimmingOnceIsEnough(first: seq<string>, lines: seq<string>)
    requires Fits(first) && first != []
    requires forall i :: 0 <= i < |first| ==> ByteLen(first[i]) <= MAX_BYTES
    ensures Replay(first, lines) == DropBytes(LastLines(History(first, lines)))
  {
    var all := History(first, lines);
    HistoryLinesAreShort(first, lines);
    HistoryNotEmpty(first, lines);
    ReplayIsWindow(first, lines);
    var k := if |all| > MAX_LINES then |all| - MAX_LINES else 0;
    assert LastLines(all) == all[k..];
    DropBytesWindow(all, k);
    WindowIsUnique(Replay(first, lines), DropBytes(all[k..]), all);
  }

  lemma {:induction false} HistoryNotEmpty(first: seq<string>, lines: seq<string>)
    requires first != []
    ensures History(first, lines) != []
    decreases |lines|
  {
    if lines != [] {
      HistoryNotEmpty(first, lines[..|lines| - 1]);
    }
  }
}
