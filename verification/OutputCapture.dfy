/** `commandOutputCapture` and the output bound of `commandRunner.Run` in
    internal/testdeploy/service.go. A character stands for one byte here. */
module OutputCapture {
  import opened Text

  const MAX_OUTPUT: nat := 65536
  const MARKER := "[deploy-server] phase=deploying"

  function Concat(chunks: seq<string>): string {
    if chunks == [] then "" else Concat(chunks[..|chunks| - 1]) + chunks[|chunks| - 1]
  }

  /** The writes come one after the other. */
  lemma {:induction false} ConcatOfSum(a: seq<string>, b: seq<string>)
    ensures Concat(a + b) == Concat(a) + Concat(b)
    decreases |b|
  {
    if b == [] {
      assert a + b == a;
    } else {
      var n := |b| - 1;
      ConcatOfSum(a, b[..n]);
      ConcatOfMore(a + b[..n], b[n]);
      assert a + b == a + b[..n] + [b[n]];
    }
  }

  lemma ConcatOfMore(chunks: seq<string>, chunk: string)
    ensures Concat(chunks + [chunk]) == Concat(chunks) + chunk
  {
    assert (chunks + [chunk])[..|chunks|] == chunks;
  }

  lemma ConcatOfOne(chunk: string)
    ensures Concat([chunk]) == chunk
  {
    assert [chunk][..0] == [];
  }

  function Tail(s: string): (r: string)
    ensures |r| == if |s| < 65536 then |s| else 65536
    ensures r == s[|s| - |r|..]
  {
    if |s| > MAX_OUTPUT then s[|s| - MAX_OUTPUT..] else s
  }

  class Capture {
    var buffer: string
    var fired: bool
    const watching: bool

    /** The callback has run exactly when the marker is in what was written. */
    ghost predicate Valid()
      reads this
    {
      fired <==> watching && Contains(buffer, MARKER)
    }

    constructor (watching: bool)
      ensures Valid() && buffer == "" && this.watching == watching
    {
      buffer, fired := "", false;
      this.watching := watching;
    }

    /** `called` says that this write ran the callback. */
    method Write(p: string) returns (called: bool)
      requires Valid()
      modifies this
      ensures Valid() && buffer == old(buffer) + p
      ensures called <==> fired && !old(fired)
      ensures old(fired) ==> fired
    {
      ghost var before := buffer;
      buffer := buffer + p;
      var deploying := watching && Contains(buffer, MARKER);
      called := deploying && !fired;
      if fired {
        ContainsMonotone(before, "", p, MARKER);
        assert "" + before + p == buffer;
      }
      if called {
        fired := true;
      }
    }
  }

  lemma ConcatOneMore(chunks: seq<string>, k: nat)
    requires k < |chunks|
    ensures Concat(chunks[..k + 1]) == Concat(chunks[..k]) + chunks[k]
  {
    assert chunks[..k + 1][..k] == chunks[..k];
  }

  /** Write `k` is the one after which the marker is there for the first time. */
  predicate Completes(chunks: seq<string>, k: nat)
    requires k < |chunks|
  {
    Contains(Concat(chunks[..k + 1]), MARKER) && !Contains(Concat(chunks[..k]), MARKER)
  }

  /** The writes of one command. `firedAt` is the write that ran the callback,
      and `calls` counts how often it ran: whatever the chunking, it is the first
      write that completes the marker, and the callback runs at most once. */
  method CaptureAll(chunks: seq<string>, watching: bool)
    returns (output: string, firedAt: Option<nat>, calls: nat)
    ensures output == Tail(Concat(chunks))
    ensures calls == if watching && Contains(Concat(chunks), MARKER) then 1 else 0
    ensures firedAt.Some? <==> calls == 1
    ensures firedAt.Some? ==> firedAt.value < |chunks| && Completes(chunks, firedAt.value)
  {
    var capture := new Capture(watching);
    firedAt, calls := None, 0;
    for i := 0 to |chunks|
      invariant capture.Valid() && capture.watching == watching
      invariant capture.buffer == Concat(chunks[..i])
      invariant calls == if capture.fired then 1 else 0
      invariant firedAt.Some? <==> calls == 1
      invariant firedAt.Some? ==> firedAt.value < i && Completes(chunks, firedAt.value)
    {
      ConcatOneMore(chunks, i);
      var called := capture.Write(chunks[i]);
      if called {
        firedAt, calls := Some(i), calls + 1;
      }
    }
    assert chunks[..|chunks|] == chunks;
    output := Tail(capture.buffer);
  }

  /** At most one write completes the marker. */
  lemma CompletesOnce(chunks: seq<string>, j: nat, k: nat)
    requires j < |chunks| && k < |chunks|
    requires Completes(chunks, j) && Completes(chunks, k)
    ensures j == k
  {
    if j < k {
      PrefixGrows(chunks, j + 1, k);
    } else if k < j {
      PrefixGrows(chunks, k + 1, j);
    }
  }

  lemma PrefixGrows(chunks: seq<string>, j: nat, k: nat)
    requires j <= k <= |chunks| && Contains(Concat(chunks[..j]), MARKER)
    ensures Contains(Concat(chunks[..k]), MARKER)
  {
    assert chunks[..k] == chunks[..j] + chunks[j..k];
    ConcatOfSum(chunks[..j], chunks[j..k]);
    ContainsMonotone(Concat(chunks[..j]), "", Concat(chunks[j..k]), MARKER);
    assert "" + Concat(chunks[..j]) == Concat(chunks[..j]);
  }
}
