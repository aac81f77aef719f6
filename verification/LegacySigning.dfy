/** Legacy request signing, internal/testbot/service.go. */
module LegacySigning {
  import opened Text

  type Query = map<string, string>

  const SUFFIX := "!rilegoule#"
  const FIELDS := ["_abi", "_index", "_ipv", "_model", "_platform", "_timestamp", "format", "package"]

  /* Timestamps */

  /** One clock reading after the last issued timestamp. */
  function Next(last: nat, now: int): nat {
    if now <= last then last + 1 else now
  }

  /** The last timestamp issued for a sequence of clock readings. */
  function Last(clock: seq<int>): nat {
    if clock == [] then 0 else Next(Last(clock[..|clock| - 1]), clock[|clock| - 1])
  }

  /** The timestamp issued for reading k. */
  function Issued(clock: seq<int>, k: nat): nat
    requires k < |clock|
  {
    Last(clock[..k + 1])
  }

  /** For any clock, even one that runs backwards: the n-th timestamp is the
      largest of n and of every reading plus the number of calls since. */
  lemma {:induction false} TimestampClosedForm(clock: seq<int>)
    ensures Last(clock) >= |clock|
    ensures forall i :: 0 <= i < |clock| ==> Last(clock) >= clock[i] + (|clock| - 1 - i)
    ensures Last(clock) == |clock| || exists i :: 0 <= i < |clock| && Last(clock) == clock[i] + (|clock| - 1 - i)
    decreases |clock|
  {
    if clock != [] {
      var n := |clock| - 1;
      var before := clock[..n];
      TimestampClosedForm(before);
      forall i | 0 <= i < |clock| ensures Last(clock) >= clock[i] + (n - i) {
        if i < n {
          assert before[i] == clock[i];
        }
      }
      if clock[n] > Last(before) {
        assert Last(clock) == clock[n] + (n - n);
      } else if Last(before) != n {
        var i :| 0 <= i < n && Last(before) == before[i] + (n - 1 - i);
        assert Last(clock) == clock[i] + (n - i);
      }
    }
  }

  lemma {:induction false} TimestampsIncrease(clock: seq<int>, j: nat, k: nat)
    requires j < k <= |clock|
    ensures Last(clock[..j]) < Last(clock[..k])
    decreases k
  {
    assert clock[..k][..k - 1] == clock[..k - 1];
    if j < k - 1 {
      TimestampsIncrease(clock, j, k - 1);
    }
  }

  /* The signed text */

  /** The "key=value" parts; a missing format is left out, other missing values
      are empty. */
  function Parts(query: Query, fields: seq<string>): seq<string> {
    if fields == [] then []
    else
      var n := |fields| - 1;
      var key := fields[n];
      var before := Parts(query, fields[..n]);
      if key == "format" && key !in query then before
      else before + [key + "=" + (if key in query then query[key] else "")]
  }

  /** strings.Join(parts, "&") */
  function JoinAmp(parts: seq<string>): string {
    if |parts| == 0 then "" else if |parts| == 1 then parts[0] else parts[0] + "&" + JoinAmp(parts[1..])
  }

  function Payload(query: Query): string {
    JoinAmp(Parts(query, FIELDS)) + SUFFIX
  }

  /** legacyFirewallSign up to the digest. */
  method BuildPayload(query: Query) returns (text: string)
    ensures text == Payload(query)
  {
    var parts: seq<string> := [];
    for i := 0 to |FIELDS|
      invariant parts == Parts(query, FIELDS[..i])
    {
      var key := FIELDS[i];
      assert FIELDS[..i + 1][..i] == FIELDS[..i];
      if key == "format" && key !in query {
      } else {
        parts := parts + [key + "=" + (if key in query then query[key] else "")];
      }
    }
    assert FIELDS[..|FIELDS|] == FIELDS;
    text := JoinAmp(parts) + SUFFIX;
  }

  /** The query before it is signed: the configured identity overrides the caller. */
  function Unsigned(input: Query, login: Query, timestamp: nat): Query {
    (input + login)["_timestamp" := Decimal(timestamp)]
  }

  /** An endpoint as far as signing is concerned. */
  datatype Endpoint = Endpoint(signed: bool, allowedQueryKeys: seq<string>)

  /** The query keys are all on the endpoint's list. */
  predicate Allowed(endpoint: Endpoint, query: Query) {
    forall key :: key in query ==> key in endpoint.allowedQueryKeys
  }

  /** validateKeys for a query; the keys are visited in any order. */
  method ValidateKeys(query: Query, endpoint: Endpoint) returns (ok: bool)
    ensures ok <==> Allowed(endpoint, query)
  {
    var rest := query.Keys;
    while rest != {}
      invariant rest <= query.Keys
      invariant forall key :: key in query.Keys - rest ==> key in endpoint.allowedQueryKeys
      decreases rest
    {
      var key :| key in rest;
      if key !in endpoint.allowedQueryKeys {
        return false;
      }
      rest := rest - {key};
    }
    return true;
  }

  class Signer {
    const login: Query
    var lastSignTimestamp: nat

    constructor (login: Query)
      ensures this.login == login && lastSignTimestamp == 0
    {
      this.login := login;
      lastSignTimestamp := 0;
    }

    /** legacySignedQuery, with the clock reading and the digest given. */
    method LegacySignedQuery(input: Query, now: int, digest: string -> string) returns (query: Query)
      modifies this
      ensures lastSignTimestamp == Next(old(lastSignTimestamp), now) > old(lastSignTimestamp)
      ensures var u := Unsigned(input, login, lastSignTimestamp);
        query == u["_sign" := digest(Payload(u))]
    {
      query := map[];
      query := query + input;
      query := query + login;
      var timestamp := now;
      if timestamp <= lastSignTimestamp {
        timestamp := lastSignTimestamp + 1;
      }
      lastSignTimestamp := timestamp;
      query := query["_timestamp" := Decimal(timestamp)];
      assert query == Unsigned(input, login, timestamp);
      var text := BuildPayload(query);
      query := query["_sign" := digest(text)];
    }

    /** What Call sends to an endpoint as its query: nothing for a key that is not
        listed, and a signed query exactly for the endpoints that want one. */
    method QueryFor(endpoint: Endpoint, input: Query, now: int, digest: string -> string) returns (query: Option<Query>)
      modifies this
      ensures query.Some? <==> Allowed(endpoint, input)
      ensures query.Some? && endpoint.signed ==>
          lastSignTimestamp == Next(old(lastSignTimestamp), now)
          && query.value == Signed(input, login, lastSignTimestamp, digest)
      ensures query.Some? && !endpoint.signed ==> query.value == input
      ensures query.None? || !endpoint.signed ==> lastSignTimestamp == old(lastSignTimestamp)
    {
      var ok := ValidateKeys(input, endpoint);
      if !ok {
        return None;
      }
      if endpoint.signed {
        var signed := LegacySignedQuery(input, now, digest);
        return Some(signed);
      }
      return Some(input);
    }

    /** Any number of calls: the timestamps are those of the specification. */
    method SignAll(inputs: seq<Query>, clock: seq<int>, digest: string -> string) returns (issued: seq<Query>)
      requires |inputs| == |clock| && lastSignTimestamp == 0
      modifies this
      ensures |issued| == |clock|
      ensures forall i :: 0 <= i < |issued| ==>
          issued[i] == Signed(inputs[i], login, Issued(clock, i), digest)
    {
      issued := [];
      for i := 0 to |inputs|
        invariant |issued| == i && lastSignTimestamp == Last(clock[..i])
        invariant forall k :: 0 <= k < i ==> issued[k] == Signed(inputs[k], login, Issued(clock, k), digest)
      {
        assert clock[..i + 1][..i] == clock[..i];
        var query := LegacySignedQuery(inputs[i], clock[i], digest);
        issued := issued + [query];
      }
    }
  }

  function Signed(input: Query, login: Query, timestamp: nat, digest: string -> string): Query {
    var u := Unsigned(input, login, timestamp);
    u["_sign" := digest(Payload(u))]
  }

  /* Laws */

  lemma {:induction false} PartsAgree(p: Query, q: Query, fields: seq<string>)
    requires forall i :: 0 <= i < |fields| ==>
        (fields[i] in p <==> fields[i] in q) && (fields[i] in p ==> p[fields[i]] == q[fields[i]])
    ensures Parts(p, fields) == Parts(q, fields)
    decreases |fields|
  {
    if fields != [] {
      PartsAgree(p, q, fields[..|fields| - 1]);
    }
  }

  /** A receiver that drops `_sign` and recomputes it gets the value that was sent. */
  lemma SignatureVerifies(input: Query, login: Query, timestamp: nat, digest: string -> string)
    ensures var sent := Signed(input, login, timestamp, digest);
      "_sign" in sent && sent["_sign"] == digest(Payload(sent - {"_sign"}))
  {
    var sent := Signed(input, login, timestamp, digest);
    forall i | 0 <= i < |FIELDS| ensures FIELDS[i] != "_sign" {
      SignIsNoField(i);
    }
    PartsAgree(Unsigned(input, login, timestamp), sent - {"_sign"}, FIELDS);
  }

  lemma SignIsNoField(i: nat)
    requires i < |FIELDS|
    ensures FIELDS[i] != "_sign"
  {
    var s := "_sign";
    assert |s| == 5 && s[1] == 's';
  }

  /** The configured identity is authoritative; apart from it, the timestamp and
      the signature, the caller's values are sent. */
  lemma IdentityIsAuthoritative(input: Query, login: Query, timestamp: nat, digest: string -> string, key: string)
    requires key != "_timestamp" && key != "_sign"
    ensures var sent := Signed(input, login, timestamp, digest);
      && (key in sent <==> key in input || key in login)
      && (key in login ==> sent[key] == login[key])
      && (key in input && key !in login ==> sent[key] == input[key])
  {
  }

  const BEFORE := ["_abi", "_index", "_ipv", "_model", "_platform"]
  const AFTER := ["format", "package"]

  lemma {:induction false} PartsOfSum(q: Query, a: seq<string>, b: seq<string>)
    ensures Parts(q, a + b) == Parts(q, a) + Parts(q, b)
    decreases |b|
  {
    if b == [] {
      assert a + b == a;
    } else {
      assert (a + b)[..|a + b| - 1] == a + b[..|b| - 1];
      PartsOfSum(q, a, b[..|b| - 1]);
    }
  }

  /** Every part with a mark in front of it. */
  function Glue(parts: seq<string>): string {
    if parts == [] then "" else "&" + parts[0] + Glue(parts[1..])
  }

  lemma {:induction false} GlueOfSum(a: seq<string>, b: seq<string>)
    ensures Glue(a + b) == Glue(a) + Glue(b)
  {
    if a == [] {
      assert a + b == b;
    } else {
      assert (a + b)[1..] == a[1..] + b;
      GlueOfSum(a[1..], b);
    }
  }

  lemma {:induction false} GlueOfJoin(parts: seq<string>)
    requires parts != []
    ensures Glue(parts) == "&" + JoinAmp(parts)
  {
    if |parts| == 1 {
      assert parts[1..] == [] && "&" + parts[0] + "" == "&" + parts[0];
    } else {
      GlueOfJoin(parts[1..]);
    }
  }

  /** The part of the signed text that belongs to some of the fields. */
  function Segment(q: Query, fields: seq<string>): string {
    Glue(Parts(q, fields))
  }

  lemma SegmentOfSum(q: Query, a: seq<string>, b: seq<string>)
    ensures Segment(q, a + b) == Segment(q, a) + Segment(q, b)
  {
    PartsOfSum(q, a, b);
    GlueOfSum(Parts(q, a), Parts(q, b));
  }

  function ValueOf(q: Query, key: string): string {
    if key in q then q[key] else ""
  }

  lemma SegmentOfOne(q: Query, key: string)
    requires key in q || key != "format"
    ensures Segment(q, [key]) == "&" + key + "=" + ValueOf(q, key)
  {
    assert [key][..0] == [];
    assert Parts(q, [key][..0]) == [];
    var part := key + "=" + ValueOf(q, key);
    assert [] + [part] == [part];
    assert Parts(q, [key]) == [part];
    assert [part][1..] == [] && Glue([part][1..]) == "";
    assert "&" + part + "" == "&" + key + "=" + ValueOf(q, key);
  }

  /** One field cut out of a list of fields. */
  lemma SegmentAround(q: Query, fields: seq<string>, i: nat)
    requires i < |fields| && (fields[i] in q || fields[i] != "format")
    ensures Segment(q, fields)
         == Segment(q, fields[..i]) + ("&" + fields[i] + "=") + ValueOf(q, fields[i]) + Segment(q, fields[i + 1..])
  {
    assert fields == fields[..i] + [fields[i]] + fields[i + 1..];
    SegmentOfSum(q, fields[..i] + [fields[i]], fields[i + 1..]);
    SegmentOfSum(q, fields[..i], [fields[i]]);
    SegmentOfOne(q, fields[i]);
    assert "&" + fields[i] + "=" + ValueOf(q, fields[i]) == ("&" + fields[i] + "=") + ValueOf(q, fields[i]);
  }

  lemma AllFields()
    ensures FIELDS == BEFORE + ["_timestamp"] + AFTER
    ensures FIELDS[..5] == BEFORE && FIELDS[5] == "_timestamp" && FIELDS[6..] == AFTER
  {
  }

  lemma {:induction false} PackageIsLast(q: Query)
    ensures Segment(q, AFTER) != "" && Segment(q, AFTER)[0] == '&'
  {
    SegmentOfSum(q, ["format"], ["package"]);
    assert AFTER == ["format"] + ["package"];
    assert ["package"][..0] == [] && ["format"][..0] == [];
    assert |"package"| == 7 && |"format"| == 6;
    assert Parts(q, ["package"]) != [];
  }

  /** The timestamp stands between what belongs to the fields in front of it and
      what belongs to those behind it. */
  lemma PayloadShape(q: Query)
    requires "_timestamp" in q
    ensures "&" + Payload(q) == Segment(q, BEFORE) + "&_timestamp=" + q["_timestamp"] + (Segment(q, AFTER) + SUFFIX)
  {
    AllFields();
    SegmentAround(q, FIELDS, 5);
    assert "&" + "_timestamp" + "=" == "&_timestamp=";
    GlueOfJoin(Parts(q, FIELDS));
    assert "&" + Payload(q) == Segment(q, FIELDS) + SUFFIX;
  }

  lemma {:induction false} NumberBeforeMark(a: string, b: string, r: string, t: string)
    requires AllDigits(a) && AllDigits(b) && a + ("&" + r) == b + ("&" + t)
    ensures a == b
  {
    assert (a + ("&" + r))[0] == (b + ("&" + t))[0];
    if a != [] && b != [] {
      assert a + ("&" + r) == [a[0]] + (a[1..] + ("&" + r));
      assert b + ("&" + t) == [b[0]] + (b[1..] + ("&" + t));
      assert ([a[0]] + (a[1..] + ("&" + r)))[1..] == a[1..] + ("&" + r);
      assert ([b[0]] + (b[1..] + ("&" + t)))[1..] == b[1..] + ("&" + t);
      NumberBeforeMark(a[1..], b[1..], r, t);
    }
  }

  lemma {:induction false} NumberAfterMark(a: string, b: string, r: string, t: string)
    requires AllDigits(a) && AllDigits(b) && r + "=" + a == t + "=" + b
    ensures a == b
    decreases |a|
  {
    var s := r + "=" + a;
    assert s[|s| - 1] == (t + "=" + b)[|t + "=" + b| - 1];
    if a != [] && b != [] {
      var m, n := |a| - 1, |b| - 1;
      assert s[..|s| - 1] == r + "=" + a[..m];
      assert (t + "=" + b)[..|s| - 1] == t + "=" + b[..n];
      NumberAfterMark(a[..m], b[..n], r, t);
      assert a == a[..m] + [a[m]] && b == b[..n] + [b[n]];
    }
  }

  /** A caller can reach a signed endpoint with this query. */
  predicate Received(endpoints: seq<Endpoint>, query: Query) {
    exists e :: e in endpoints && e.signed && Allowed(e, query)
  }

  /** The configuration leaves the field to callers: it does not fix it, and some
      signed endpoint lists it. */
  predicate Free(login: Query, endpoints: seq<Endpoint>, field: string) {
    field !in login && exists e :: e in endpoints && e.signed && field in e.allowedQueryKeys
  }

  predicate NoneFree(login: Query, endpoints: seq<Endpoint>, fields: seq<string>) {
    forall i :: 0 <= i < |fields| ==> !Free(login, endpoints, fields[i])
  }

  lemma FreeIfGiven(login: Query, endpoints: seq<Endpoint>, query: Query, field: string)
    requires Received(endpoints, query) && field in query
    ensures field in login || Free(login, endpoints, field)
  {
    var e :| e in endpoints && e.signed && Allowed(e, query);
    assert field in e.allowedQueryKeys;
  }

  lemma FieldsAreDistinct()
    ensures forall i, j :: 0 <= i < j < |FIELDS| ==> FIELDS[i] != FIELDS[j]
  {
    assert |"_abi"| == 4 && |"_index"| == 6 && |"_ipv"| == 4 && |"_model"| == 6 && |"_platform"| == 9
        && |"_timestamp"| == 10 && |"format"| == 6 && |"package"| == 7;
    assert "_abi"[1] == 'a' && "_ipv"[1] == 'i' && "_index"[1] == 'i' && "_model"[1] == 'm' && "format"[1] == 'o';
  }

  lemma FieldAt(i: nat)
    requires i < |FIELDS|
    ensures i < 5 ==> BEFORE[i] == FIELDS[i]
    ensures i > 5 ==> AFTER[i - 6] == FIELDS[i]
    ensures i != 5 ==> FIELDS[i] != "_timestamp"
  {
    AllFields();
    FieldsAreDistinct();
    assert FIELDS[5] == "_timestamp";
  }

  lemma SegmentsAgree(login: Query, x: Query, y: Query, t: nat, u: nat, fields: seq<string>)
    requires forall i :: 0 <= i < |fields| ==> fields[i] != "_timestamp"
    requires forall i :: 0 <= i < |fields| ==> fields[i] in login || (fields[i] !in x && fields[i] !in y)
    ensures Segment(Unsigned(x, login, t), fields) == Segment(Unsigned(y, login, u), fields)
  {
    PartsAgree(Unsigned(x, login, t), Unsigned(y, login, u), fields);
  }

  lemma NotTimestamp(fields: seq<string>)
    requires fields == BEFORE || fields == AFTER
    ensures forall i :: 0 <= i < |fields| ==> fields[i] != "_timestamp"
  {
    forall i | 0 <= i < |fields| ensures fields[i] != "_timestamp" {
      FieldAt(if fields == BEFORE then i else i + 6);
    }
  }

  lemma NotGiven(login: Query, endpoints: seq<Endpoint>, x: Query, y: Query, fields: seq<string>)
    requires Received(endpoints, x) && Received(endpoints, y) && NoneFree(login, endpoints, fields)
    ensures forall i :: 0 <= i < |fields| ==> fields[i] in login || (fields[i] !in x && fields[i] !in y)
  {
    forall i | 0 <= i < |fields| ensures fields[i] in login || (fields[i] !in x && fields[i] !in y) {
      if fields[i] in x { FreeIfGiven(login, endpoints, x, fields[i]); }
      if fields[i] in y { FreeIfGiven(login, endpoints, y, fields[i]); }
    }
  }

  lemma SameBeforeDiffers(p: Query, q: Query, t: nat, u: nat)
    requires "_timestamp" in p && p["_timestamp"] == Decimal(t) && "_timestamp" in q && q["_timestamp"] == Decimal(u)
    requires Segment(p, BEFORE) == Segment(q, BEFORE) && Payload(p) == Payload(q)
    ensures t == u
  {
    PayloadShape(p);
    PayloadShape(q);
    ValueOfDecimal(t);
    ValueOfDecimal(u);
    PackageIsLast(p);
    PackageIsLast(q);
    var r, s := Segment(p, AFTER) + SUFFIX, Segment(q, AFTER) + SUFFIX;
    SameFront(Segment(p, BEFORE) + "&_timestamp=", Decimal(t), r, Decimal(u), s);
    assert r == "&" + r[1..] && s == "&" + s[1..];
    NumberBeforeMark(Decimal(t), Decimal(u), r[1..], s[1..]);
  }

  lemma SameAfterDiffers(p: Query, q: Query, t: nat, u: nat)
    requires "_timestamp" in p && p["_timestamp"] == Decimal(t) && "_timestamp" in q && q["_timestamp"] == Decimal(u)
    requires Segment(p, AFTER) == Segment(q, AFTER) && Payload(p) == Payload(q)
    ensures t == u
  {
    PayloadShape(p);
    PayloadShape(q);
    ValueOfDecimal(t);
    ValueOfDecimal(u);
    var a, b := Segment(p, BEFORE) + "&_timestamp", Segment(q, BEFORE) + "&_timestamp";
    assert "&_timestamp=" == "&_timestamp" + "=";
    assert a + "=" == Segment(p, BEFORE) + "&_timestamp=" && b + "=" == Segment(q, BEFORE) + "&_timestamp=";
    SameBack(a + "=" + Decimal(t), b + "=" + Decimal(u), Segment(p, AFTER) + SUFFIX);
    NumberAfterMark(Decimal(t), Decimal(u), a, b);
  }

  /** Different timestamps give different texts when callers reach no field on one
      side of the timestamp. */
  lemma DifferentTimesDiffer(login: Query, endpoints: seq<Endpoint>, x: Query, y: Query, t: nat, u: nat)
    requires t != u && Received(endpoints, x) && Received(endpoints, y)
    requires NoneFree(login, endpoints, BEFORE) || NoneFree(login, endpoints, AFTER)
    ensures Payload(Unsigned(x, login, t)) != Payload(Unsigned(y, login, u))
  {
    var p, q := Unsigned(x, login, t), Unsigned(y, login, u);
    if Payload(p) == Payload(q) {
      if NoneFree(login, endpoints, BEFORE) {
        NotTimestamp(BEFORE);
        NotGiven(login, endpoints, x, y, BEFORE);
        SegmentsAgree(login, x, y, t, u, BEFORE);
        SameBeforeDiffers(p, q, t, u);
      } else {
        NotTimestamp(AFTER);
        NotGiven(login, endpoints, x, y, AFTER);
        SegmentsAgree(login, x, y, t, u, AFTER);
        SameAfterDiffers(p, q, t, u);
      }
    }
  }

  lemma SameFront(head: string, a: string, r: string, b: string, t: string)
    requires head + a + r == head + b + t
    ensures a + r == b + t
  {
    assert (head + a + r)[|head|..] == a + r && (head + b + t)[|head|..] == b + t;
  }

  lemma SameBack(a: string, b: string, tail: string)
    requires a + tail == b + tail
    ensures a == b
  {
    assert |a| == |b| && (a + tail)[..|a|] == a && (b + tail)[..|a|] == b;
  }

  /** Queries that callers can get through to signed endpoints. */
  predicate AllReceived(endpoints: seq<Endpoint>, inputs: seq<Query>) {
    forall i :: 0 <= i < |inputs| ==> Received(endpoints, inputs[i])
  }

  /** Whatever the clock and the callers do, no two calls sign the same text. */
  ghost predicate ReplayFree(login: Query, endpoints: seq<Endpoint>) {
    forall inputs: seq<Query>, clock: seq<int>, j: nat, k: nat ::
      AllReceived(endpoints, inputs) && j < k < |inputs| == |clock| ==>
        Payload(Unsigned(inputs[j], login, Issued(clock, j))) != Payload(Unsigned(inputs[k], login, Issued(clock, k)))
  }

  /** Two calls of a run, when callers reach no field on one side. */
  lemma NoTwoCallsSignTheSameText(login: Query, endpoints: seq<Endpoint>, inputs: seq<Query>, clock: seq<int>,
                                  j: nat, k: nat)
    requires AllReceived(endpoints, inputs) && j < k < |clock| == |inputs|
    requires NoneFree(login, endpoints, BEFORE) || NoneFree(login, endpoints, AFTER)
    ensures Payload(Unsigned(inputs[j], login, Issued(clock, j)))
         != Payload(Unsigned(inputs[k], login, Issued(clock, k)))
  {
    TimestampsIncrease(clock, j + 1, k + 1);
    DifferentTimesDiffer(login, endpoints, inputs[j], inputs[k], Issued(clock, j), Issued(clock, k));
  }

  /* The collision */

  /** The caller's one value touches no other segment. */
  lemma OthersAgree(login: Query, i: nat, j: nat, p: Query, t: nat)
    requires i < |BEFORE| && j < |AFTER| && p.Keys <= {BEFORE[i], AFTER[j]}
    ensures Segment(Unsigned(p, login, t), BEFORE[..i]) == Segment(Unsigned(map[], login, 0), BEFORE[..i])
    ensures Segment(Unsigned(p, login, t), BEFORE[i + 1..]) == Segment(Unsigned(map[], login, 0), BEFORE[i + 1..])
    ensures Segment(Unsigned(p, login, t), AFTER[..j]) == Segment(Unsigned(map[], login, 0), AFTER[..j])
    ensures Segment(Unsigned(p, login, t), AFTER[j + 1..]) == Segment(Unsigned(map[], login, 0), AFTER[j + 1..])
  {
    forall k | 0 <= k < |BEFORE| && k != i ensures BEFORE[k] !in p && BEFORE[k] != "_timestamp" {
      FieldAt(k);
      FieldAt(i);
      FieldAt(j + 6);
      FieldsAreDistinct();
    }
    forall k | 0 <= k < |AFTER| && k != j ensures AFTER[k] !in p && AFTER[k] != "_timestamp" {
      FieldAt(k + 6);
      FieldAt(i);
      FieldAt(j + 6);
      FieldsAreDistinct();
    }
    SegmentsAgree(login, p, map[], t, 0, BEFORE[..i]);
    SegmentsAgree(login, p, map[], t, 0, BEFORE[i + 1..]);
    SegmentsAgree(login, p, map[], t, 0, AFTER[..j]);
    SegmentsAgree(login, p, map[], t, 0, AFTER[j + 1..]);
  }

  /** The segment in front of the timestamp when one free field has the value v. */
  lemma FrontWith(login: Query, i: nat, j: nat, p: Query, t: nat, a: string, b: string)
    requires i < |BEFORE| && j < |AFTER| && p.Keys <= {BEFORE[i], AFTER[j]} && BEFORE[i] !in login
    requires a == Segment(Unsigned(map[], login, 0), BEFORE[..i]) + ("&" + BEFORE[i] + "=")
    requires b == Segment(Unsigned(map[], login, 0), BEFORE[i + 1..])
    ensures Segment(Unsigned(p, login, t), BEFORE) == a + ValueOf(p, BEFORE[i]) + b
  {
    FieldAt(i);
    FieldsAreDistinct();
    AllFields();
    assert BEFORE[i] != "format" && BEFORE[i] != "_timestamp";
    OthersAgree(login, i, j, p, t);
    SegmentAround(Unsigned(p, login, t), BEFORE, i);
  }

  /** The segment behind the timestamp when a free field that is there has a value. */
  lemma BackWith(login: Query, i: nat, j: nat, p: Query, t: nat, c: string, d: string)
    requires i < |BEFORE| && j < |AFTER| && p.Keys <= {BEFORE[i], AFTER[j]} && AFTER[j] !in login
    requires AFTER[j] in p || AFTER[j] != "format"
    requires c == Segment(Unsigned(map[], login, 0), AFTER[..j]) + ("&" + AFTER[j] + "=")
    requires d == Segment(Unsigned(map[], login, 0), AFTER[j + 1..])
    ensures Segment(Unsigned(p, login, t), AFTER) == c + ValueOf(p, AFTER[j]) + d
  {
    FieldAt(j + 6);
    FieldsAreDistinct();
    OthersAgree(login, i, j, p, t);
    SegmentAround(Unsigned(p, login, t), AFTER, j);
  }

  /** Without a format, nothing of it is in the segment. */
  lemma BackWithoutFormat(login: Query, i: nat, p: Query, t: nat, d: string)
    requires i < |BEFORE| && p.Keys <= {BEFORE[i]} && "format" !in login
    requires d == Segment(Unsigned(map[], login, 0), AFTER[1..])
    ensures Segment(Unsigned(p, login, t), AFTER) == d
  {
    FieldAt(i);
    FieldAt(6);
    FieldsAreDistinct();
    AllFields();
    OthersAgree(login, i, 0, p, t);
    var u := Unsigned(p, login, t);
    assert AFTER == ["format"] + AFTER[1..] && "format" !in u;
    SegmentOfSum(u, ["format"], AFTER[1..]);
    assert ["format"][..0] == [] && Parts(u, ["format"][..0]) == [] && Parts(u, ["format"]) == [];
    assert "" + d == d;
  }

  lemma TextOf(q: Query, front: string, back: string)
    requires "_timestamp" in q && Segment(q, BEFORE) == front && Segment(q, AFTER) == back
    ensures "&" + Payload(q) == front + "&_timestamp=" + q["_timestamp"] + (back + SUFFIX)
    ensures ("&" + Payload(q))[1..] == Payload(q)
  {
    PayloadShape(q);
  }

  /** What one caller puts in front of the timestamp, the other puts behind it. */
  lemma Swapped(a: string, b: string, t: string, c: string, u: string, d: string)
    ensures (a + "" + b) + "&_timestamp=" + t + ((c + (b + "&_timestamp=" + u + c) + d) + SUFFIX)
         == (a + (b + "&_timestamp=" + t + c) + b) + "&_timestamp=" + u + ((c + "" + d) + SUFFIX)
  {
    var m := b + "&_timestamp=";
    assert (a + "" + b) + "&_timestamp=" == a + m;
    assert (a + (b + "&_timestamp=" + t + c) + b) + "&_timestamp=" == a + (m + t + c) + m;
    assert c + "" + d == c + d;
  }

  lemma SwappedFormat(a: string, b: string, t: string, c: string, u: string, d: string)
    ensures (a + "" + b) + "&_timestamp=" + t + ((c + (b + "&_timestamp=" + u) + d) + SUFFIX)
         == (a + (b + "&_timestamp=" + t + c) + b) + "&_timestamp=" + u + (d + SUFFIX)
  {
    var m := b + "&_timestamp=";
    assert (a + "" + b) + "&_timestamp=" == a + m;
    assert (a + (b + "&_timestamp=" + t + c) + b) + "&_timestamp=" == a + (m + t + c) + m;
  }

  /** A field on each side that the configuration does not fix: one caller sets the
      one, another caller the other, and both sign the same text. */
  lemma Collision(login: Query, i: nat, j: nat, t: nat, u: nat) returns (p: Query, q: Query)
    requires i < |BEFORE| && j < |AFTER| && BEFORE[i] !in login && AFTER[j] !in login
    ensures p.Keys == {AFTER[j]} && q.Keys == {BEFORE[i]}
    ensures Payload(Unsigned(p, login, t)) == Payload(Unsigned(q, login, u))
  {
    var o := Unsigned(map[], login, 0);
    var a, b := Segment(o, BEFORE[..i]) + ("&" + BEFORE[i] + "="), Segment(o, BEFORE[i + 1..]);
    var c, d := Segment(o, AFTER[..j]) + ("&" + AFTER[j] + "="), Segment(o, AFTER[j + 1..]);
    FieldAt(i);
    FieldAt(j + 6);
    FieldsAreDistinct();
    q := map[BEFORE[i] := b + "&_timestamp=" + Decimal(t) + c];
    if j == 0 {
      assert Segment(o, AFTER[..0]) == "" by { assert AFTER[..0] == []; }
      p := map[AFTER[j] := b + "&_timestamp=" + Decimal(u)];
      BackWithoutFormat(login, i, q, u, d);
      TextOf(Unsigned(q, login, u), a + q[BEFORE[i]] + b, d) by { FrontWith(login, i, j, q, u, a, b); }
      SwappedFormat(a, b, Decimal(t), c, Decimal(u), d);
    } else {
      p := map[AFTER[j] := b + "&_timestamp=" + Decimal(u) + c];
      BackWith(login, i, j, q, u, c, d);
      TextOf(Unsigned(q, login, u), a + q[BEFORE[i]] + b, c + "" + d) by { FrontWith(login, i, j, q, u, a, b); }
      Swapped(a, b, Decimal(t), c, Decimal(u), d);
    }
    FrontWith(login, i, j, p, t, a, b);
    BackWith(login, i, j, p, t, c, d);
    TextOf(Unsigned(p, login, t), a + "" + b, c + p[AFTER[j]] + d);
  }

  lemma ReceivedAlone(login: Query, endpoints: seq<Endpoint>, field: string, query: Query)
    requires Free(login, endpoints, field) && query.Keys == {field}
    ensures Received(endpoints, query)
  {
    var e :| e in endpoints && e.signed && field in e.allowedQueryKeys;
    assert Allowed(e, query);
  }

  /** The exact condition: two calls can never sign the same text if and only if
      callers reach no field in front of the timestamp, or none behind it. */
  lemma ReplayFreeExactly(login: Query, endpoints: seq<Endpoint>)
    ensures ReplayFree(login, endpoints)
       <==> NoneFree(login, endpoints, BEFORE) || NoneFree(login, endpoints, AFTER)
  {
    if NoneFree(login, endpoints, BEFORE) || NoneFree(login, endpoints, AFTER) {
      forall inputs: seq<Query>, clock: seq<int>, j: nat, k: nat
        | AllReceived(endpoints, inputs) && j < k < |inputs| == |clock|
        ensures Payload(Unsigned(inputs[j], login, Issued(clock, j)))
             != Payload(Unsigned(inputs[k], login, Issued(clock, k)))
      {
        NoTwoCallsSignTheSameText(login, endpoints, inputs, clock, j, k);
      }
    } else {
      var i :| 0 <= i < |BEFORE| && Free(login, endpoints, BEFORE[i]);
      var j :| 0 <= j < |AFTER| && Free(login, endpoints, AFTER[j]);
      var clock := [5, 6];
      var p, q := Collision(login, i, j, Issued(clock, 0), Issued(clock, 1));
      ReceivedAlone(login, endpoints, AFTER[j], p);
      ReceivedAlone(login, endpoints, BEFORE[i], q);
      var inputs := [p, q];
      assert AllReceived(endpoints, inputs);
      assert Payload(Unsigned(inputs[0], login, Issued(clock, 0)))
          == Payload(Unsigned(inputs[1], login, Issued(clock, 1)));
    }
  }
}
