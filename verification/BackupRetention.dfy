/** Which backups stay: `prune_old_backups` in scripts/deploy-server.sh, and what it
    means for the backups of successful deployments. */
module BackupRetention {
  import DeployArguments

  /** A backup directory with its modification time. */
  datatype Backup = Backup(path: string, time: int)

  /** The order of `sort -nr`: by time, and by the rest of the line for equal times,
      both descending. */
  predicate Before(a: Backup, b: Backup) {
    a != b && (a.time > b.time || (a.time == b.time && DeployArguments.Leq(b.path, a.path)))
  }

  predicate NewestFirst(s: seq<Backup>) {
    forall i, j :: 0 <= i < j < |s| ==> Before(s[i], s[j])
  }

  function Elems(s: seq<Backup>): set<Backup> {
    set b | b in s
  }

  /** What pruning leaves of a newest-first list when the first `works` removals
      work: the newest `retain`, and what it did not get to. */
  function Pruned<T>(s: seq<T>, retain: nat, works: nat): seq<T> {
    if |s| <= retain then s
    else if |s| <= retain + works then s[..retain]
    else s[..retain] + s[retain + works..]
  }

  lemma BeforeIsTotal(a: Backup, b: Backup)
    requires a != b
    ensures Before(a, b) || Before(b, a)
  {
    DeployArguments.LeqTotal(a.path, b.path);
  }

  lemma BeforeIsTransitive(a: Backup, b: Backup, c: Backup)
    requires Before(a, b) && Before(b, c)
    ensures Before(a, c)
  {
    if a.time == b.time == c.time {
      DeployArguments.LeqTransitive(c.path, b.path, a.path);
      DeployArguments.LeqTotal(a.path, b.path);
    }
  }

  lemma InsertBackup(s: seq<Backup>, k: nat, b: Backup)
    requires NewestFirst(s) && k <= |s|
    requires k > 0 ==> Before(s[k - 1], b)
    requires k < |s| ==> Before(b, s[k])
    ensures NewestFirst(s[..k] + [b] + s[k..])
  {
    var r := s[..k] + [b] + s[k..];
    forall i, j | 0 <= i < j < |r| ensures Before(r[i], r[j]) {
      if j == k {
        if i < k - 1 { BeforeIsTransitive(s[i], s[k - 1], b); }
      } else if i == k {
        if j - 1 > k { BeforeIsTransitive(b, s[k], s[j - 1]); }
      }
    }
  }

  lemma TimesDescend(s: seq<Backup>)
    requires NewestFirst(s)
    ensures forall i, j :: 0 <= i < j < |s| ==> s[i].time >= s[j].time && s[i] != s[j]
    ensures forall i, j :: 0 <= i < j < |s| && s[i].time == s[j].time ==> DeployArguments.Leq(s[j].path, s[i].path)
  {
    forall i, j | 0 <= i < j < |s|
      ensures s[i].time >= s[j].time && s[i] != s[j]
      ensures s[i].time == s[j].time ==> DeployArguments.Leq(s[j].path, s[i].path)
    {
      assert Before(s[i], s[j]);
    }
  }

  /** What pruning does to a set of backups: `newest` are as many as are to be kept,
      the newest ones. They all stay, and of the others the newer ones go first. */
  ghost predicate PrunedBehind(before: set<Backup>, after: set<Backup>, newest: set<Backup>, retain: nat, works: nat) {
    && newest <= after <= before
    && |newest| == Smaller(retain, |before|)
    && (forall x, y :: x in newest && y in before - newest ==> x.time >= y.time)
    && (forall x, y :: x in before - after && y in after - newest ==> x.time >= y.time)
    && |before - after| == Smaller(works, |before| - |newest|)
  }

  lemma {:induction false} SizeOfElems(s: seq<Backup>)
    requires NewestFirst(s)
    ensures |Elems(s)| == |s|
  {
    if s != [] {
      TimesDescend(s);
      assert s == [s[0]] + s[1..];
      assert Elems(s) == {s[0]} + Elems(s[1..]) && s[0] !in Elems(s[1..]);
      SizeOfElems(s[1..]);
    }
  }

  lemma ElemsInParts(s: seq<Backup>, i: nat, j: nat)
    requires NewestFirst(s) && i <= j <= |s|
    ensures Elems(s[..i] + s[j..]) <= Elems(s) && Elems(s[..i]) <= Elems(s[..i] + s[j..])
    ensures Elems(s) - Elems(s[..i] + s[j..]) == Elems(s[i..j])
    ensures Elems(s[..i] + s[j..]) - Elems(s[..i]) == Elems(s[j..])
    ensures Elems(s) - Elems(s[..i]) == Elems(s[i..])
  {
    TimesDescend(s);
    assert s == s[..i] + s[i..j] + s[j..] && s == s[..i] + s[i..];
  }

  lemma TimesInParts(s: seq<Backup>, i: nat, j: nat)
    requires NewestFirst(s) && i <= j <= |s|
    ensures forall x, y :: x in Elems(s[..i]) && y in Elems(s[i..]) ==> x.time >= y.time
    ensures forall x, y :: x in Elems(s[i..j]) && y in Elems(s[j..]) ==> x.time >= y.time
  {
    TimesDescend(s);
  }

  lemma PrunedAt(s: seq<Backup>, left: seq<Backup>, i: nat, j: nat, retain: nat, works: nat)
    requires NewestFirst(s) && i <= j <= |s| && left == s[..i] + s[j..]
    requires i == Smaller(retain, |s|) && j - i == Smaller(works, |s| - i)
    ensures PrunedBehind(Elems(s), Elems(left), Elems(s[..i]), retain, works)
  {
    ElemsInParts(s, i, j);
    TimesInParts(s, i, j);
    SizeOfElems(s);
    SizeOfElems(s[..i]);
    SizeOfElems(s[i..j]);
  }

  /** Pruning a listing. */
  lemma PruningSparesTheNewest(order: seq<Backup>, retain: nat, works: nat)
    requires NewestFirst(order)
    ensures PrunedBehind(Elems(order), Elems(Pruned(order, retain, works)), Elems(order[..Smaller(retain, |order|)]),
                         retain, works)
  {
    var m := Smaller(retain, |order|);
    PrunedInParts(order, retain, works);
    PrunedAt(order, Pruned(order, retain, works), m, m + Smaller(works, |order| - m), retain, works);
  }

  /** A backup goes only if at least `retain` stay that are as new. */
  ghost predicate SparesTheNewest(before: set<Backup>, after: set<Backup>, retain: nat) {
    forall b {:trigger AsNewStay(after, retain, b.time)} :: b in before && b !in after ==>
      AsNewStay(after, retain, b.time)
  }

  ghost predicate AsNewStay(backups: set<Backup>, retain: nat, time: int) {
    exists newer: set<Backup> :: newer <= backups && |newer| == retain && forall x :: x in newer ==> x.time >= time
  }

  lemma PrunedSpares(order: seq<Backup>, retain: nat, works: nat)
    requires NewestFirst(order)
    ensures SparesTheNewest(Elems(order), Elems(Pruned(order, retain, works)), retain)
    ensures |Elems(order)| == |order|
  {
    PruningSparesTheNewest(order, retain, works);
    SizeOfElems(order);
    Spares(Elems(order), Elems(Pruned(order, retain, works)), Elems(order[..Smaller(retain, |order|)]), retain, works);
  }

  lemma Spares(before: set<Backup>, after: set<Backup>, newest: set<Backup>, retain: nat, works: nat)
    requires PrunedBehind(before, after, newest, retain, works)
    ensures SparesTheNewest(before, after, retain)
  {
    if |newest| < retain {
      assert before - newest == {} by {
        assert |before - newest| == |before| - |newest|;
      }
    } else {
      forall b | b in before && b !in after ensures AsNewStay(after, retain, b.time) {
        assert newest <= after;
      }
    }
  }

  lemma PrunedInParts(order: seq<Backup>, retain: nat, works: nat)
    ensures Pruned(order, retain, works)
         == order[..Smaller(retain, |order|)]
            + order[Smaller(retain, |order|) + Smaller(works, |order| - Smaller(retain, |order|))..]
  {
  }

  /** The release directory of one service. */
  class ReleaseDirectory {
    var backups: set<Backup>

    /** find and `sort -nr`. */
    method List() returns (order: seq<Backup>)
      ensures NewestFirst(order) && Elems(order) == backups
      ensures forall i, j :: 0 <= i < j < |order| ==> order[i].time >= order[j].time && order[i] != order[j]
      ensures forall i, j :: 0 <= i < j < |order| && order[i].time == order[j].time ==>
          DeployArguments.Leq(order[j].path, order[i].path)
    {
      order := [];
      var rest := backups;
      while rest != {}
        invariant rest <= backups && NewestFirst(order) && Elems(order) == backups - rest
        decreases rest
      {
        var b :| b in rest;
        order := Inserted(order, b);
        rest := rest - {b};
      }
      TimesDescend(order);
    }

    /** One line of the listing put in its place. */
    method Inserted(order: seq<Backup>, b: Backup) returns (r: seq<Backup>)
      requires NewestFirst(order) && b !in Elems(order)
      ensures NewestFirst(r) && Elems(r) == Elems(order) + {b}
    {
      var k := 0;
      while k < |order| && Before(order[k], b)
        invariant k <= |order| && (k > 0 ==> Before(order[k - 1], b))
      {
        k := k + 1;
      }
      if k < |order| {
        assert order[k] in Elems(order);
        BeforeIsTotal(order[k], b);
      }
      InsertBackup(order, k, b);
      r := order[..k] + [b] + order[k..];
      assert order == order[..k] + order[k..];
      assert forall x :: x in r <==> x in order || x == b;
    }

    /** prune_old_backups. The removals are tried from the newest on; `works` of them
        work before one fails, which stops the script. */
    method PruneOldBackups(retain: nat, works: nat) returns (ok: bool, ghost order: seq<Backup>)
      modifies this
      ensures NewestFirst(order) && Elems(order) == old(backups)
      ensures ok <==> |order| <= retain + works
      ensures backups == Elems(Pruned(order, retain, works))
      ensures ok <==> |old(backups)| <= retain + works
      ensures SparesTheNewest(old(backups), backups, retain)
    {
      var listed := List();
      order := listed;
      PrunedSpares(order, retain, works);
      ok := RemoveExpired(listed, retain, works);
    }

    /** Its loop. */
    method RemoveExpired(listed: seq<Backup>, retain: nat, works: nat) returns (ok: bool)
      requires NewestFirst(listed) && backups == Elems(listed)
      modifies this
      ensures ok <==> |listed| <= retain + works
      ensures backups == Elems(Pruned(listed, retain, works))
    {
      if |listed| <= retain {
        return true;
      }
      for i := retain to |listed|
        invariant i <= retain + works && backups == Elems(listed[..retain] + listed[i..])
      {
        if i == retain + works {
          return false;
        }
        assert listed[i..] == [listed[i]] + listed[i + 1..];
        RemoveListed(listed, retain, i);
        backups := backups - {listed[i]};
      }
      assert listed[..retain] + listed[|listed|..] == listed[..retain];
      ok := true;
    }

    /** Deployments one after the other, each under a newer time. */
    method Deployments(runs: seq<Outcome>, retain: nat, stamp: nat -> Backup)
      requires backups == {} && Stamps(stamp)
      modifies this
      ensures backups == Elems(Stamped(Kept(runs, retain), stamp))
    {
      for n := 0 to |runs|
        invariant backups == Elems(Stamped(Kept(runs[..n], retain), stamp))
      {
        KeptDescends(runs[..n], retain);
        Deployment(n, runs[n], Kept(runs[..n], retain), retain, stamp);
        assert runs[..n + 1][..n] == runs[..n];
      }
      assert runs[..|runs|] == runs;
    }

    /** One of them: a new backup, and after a commit the pruning. */
    method Deployment(n: nat, outcome: Outcome, ghost before: seq<nat>, retain: nat, stamp: nat -> Backup)
      requires Stamps(stamp) && Descending(before, n) && backups == Elems(Stamped(before, stamp))
      modifies this
      ensures backups == Elems(Stamped(Left([n] + before, outcome, retain), stamp))
    {
      backups := backups + {StampOf(stamp, n)};
      StampedOneMore(n, before, stamp);
      if outcome.Committed? {
        AfterPruning([n] + before, n + 1, retain, outcome.works, stamp);
        var ok, order := PruneOldBackups(retain, outcome.works);
      }
    }
  }

  lemma RemoveListed(s: seq<Backup>, retain: nat, i: nat)
    requires NewestFirst(s) && retain <= i < |s|
    ensures Elems(s[..retain] + s[i..]) - {s[i]} == Elems(s[..retain] + s[i + 1..])
  {
    assert s[i..] == [s[i]] + s[i + 1..];
    var left := s[..retain] + s[i + 1..];
    forall k | 0 <= k < |left| ensures left[k] != s[i] {
      assert Before(s[i], s[i]) || left[k] != s[i];
    }
  }

  /** A newest-first list is determined by its elements. */
  lemma {:induction false} OrderIsUnique(a: seq<Backup>, b: seq<Backup>)
    requires NewestFirst(a) && NewestFirst(b) && Elems(a) == Elems(b)
    ensures a == b
  {
    assert |b| > 0 ==> b[0] in Elems(b);
    if a != [] {
      assert a[0] in Elems(a) && a[0] in b && b[0] in a;
      SameNewest(a, b);
      assert a == [a[0]] + a[1..] && b == [b[0]] + b[1..];
      assert Elems(a[1..]) == Elems(a) - {a[0]} && Elems(b[1..]) == Elems(b) - {b[0]};
      OrderIsUnique(a[1..], b[1..]);
    }
  }

  lemma SameNewest(a: seq<Backup>, b: seq<Backup>)
    requires NewestFirst(a) && NewestFirst(b) && a != [] && b != [] && a[0] in b && b[0] in a
    ensures a[0] == b[0]
  {
    if a[0] != b[0] {
      assert Before(a[0], b[0]) && Before(b[0], a[0]);
      DeployArguments.LeqTotal(a[0].path, b[0].path);
    }
  }

  /* Whole sequences of deployments */

  /** A deployment that reached prepare_backup: it failed, or it committed and then
      pruned, with so many removals that work before one fails. */
  datatype Outcome = Failed | Committed(works: nat)

  /** The numbers of the deployments whose backups are there, newest first. Each makes
      a backup, and only a committed one prunes. */
  function Kept(runs: seq<Outcome>, retain: nat): seq<nat> {
    if runs == [] then []
    else
      var n := |runs| - 1;
      Left([n] + Kept(runs[..n], retain), runs[n], retain)
  }

  /** What a deployment leaves of the backups that are there after its own. */
  function Left(there: seq<nat>, outcome: Outcome, retain: nat): seq<nat> {
    match outcome
    case Failed => there
    case Committed(works) => Pruned(there, retain, works)
  }

  /** The pruning of the last deployment removed all it should. */
  predicate PrunedFully(runs: seq<Outcome>, retain: nat) {
    && runs != [] && runs[|runs| - 1].Committed?
    && 1 + |Kept(runs[..|runs| - 1], retain)| <= retain + runs[|runs| - 1].works
  }

  ghost predicate Descending(s: seq<nat>, bound: nat) {
    && (forall i :: 0 <= i < |s| ==> s[i] < bound)
    && (forall i, j :: 0 <= i < j < |s| ==> s[i] > s[j])
  }

  lemma {:induction false} KeptDescends(runs: seq<Outcome>, retain: nat)
    ensures Descending(Kept(runs, retain), |runs|)
    decreases |runs|
  {
    if runs != [] {
      var n := |runs| - 1;
      KeptDescends(runs[..n], retain);
      var there := [n] + Kept(runs[..n], retain);
      assert Descending(there, n + 1);
      if runs[n].Committed? {
        PrunedDescends(there, n + 1, retain, runs[n].works);
      }
    }
  }

  lemma PrunedDescends(s: seq<nat>, bound: nat, retain: nat, works: nat)
    requires Descending(s, bound)
    ensures Descending(Pruned(s, retain, works), bound)
  {
  }

  /* The directory holds the backups of these numbers */

  function StampOf(stamp: nat -> Backup, n: nat): Backup {
    stamp(n)
  }

  /** Later deployments have newer backups. */
  ghost predicate Stamps(stamp: nat -> Backup) {
    forall i: nat, j: nat :: i < j ==> StampOf(stamp, i).time < StampOf(stamp, j).time
  }

  function Stamped(s: seq<nat>, stamp: nat -> Backup): (r: seq<Backup>)
    ensures |r| == |s|
  {
    seq(|s|, i requires 0 <= i < |s| => StampOf(stamp, s[i]))
  }

  lemma StampedOneMore(n: nat, s: seq<nat>, stamp: nat -> Backup)
    ensures Stamped([n] + s, stamp) == [StampOf(stamp, n)] + Stamped(s, stamp)
    ensures Elems(Stamped([n] + s, stamp)) == Elems(Stamped(s, stamp)) + {StampOf(stamp, n)}
  {
    assert Stamped([n] + s, stamp) == [StampOf(stamp, n)] + Stamped(s, stamp);
  }

  lemma ListingOfStamps(s: seq<nat>, stamp: nat -> Backup, order: seq<Backup>)
    requires Stamps(stamp) && (forall i, j :: 0 <= i < j < |s| ==> s[i] > s[j])
    requires NewestFirst(order) && Elems(order) == Elems(Stamped(s, stamp))
    ensures order == Stamped(s, stamp)
  {
    OrderIsUnique(order, Stamped(s, stamp));
  }

  lemma AfterPruning(s: seq<nat>, bound: nat, retain: nat, works: nat, stamp: nat -> Backup)
    requires Stamps(stamp) && Descending(s, bound)
    ensures forall order: seq<Backup> :: NewestFirst(order) && Elems(order) == Elems(Stamped(s, stamp)) ==>
        Elems(Pruned(order, retain, works)) == Elems(Stamped(Pruned(s, retain, works), stamp))
  {
    forall order: seq<Backup> | NewestFirst(order) && Elems(order) == Elems(Stamped(s, stamp))
      ensures Elems(Pruned(order, retain, works)) == Elems(Stamped(Pruned(s, retain, works), stamp))
    {
      PrunedListing(s, bound, retain, works, stamp, order);
    }
  }

  lemma PrunedListing(s: seq<nat>, bound: nat, retain: nat, works: nat, stamp: nat -> Backup, order: seq<Backup>)
    requires Stamps(stamp) && Descending(s, bound)
    requires NewestFirst(order) && Elems(order) == Elems(Stamped(s, stamp))
    ensures Elems(Pruned(order, retain, works)) == Elems(Stamped(Pruned(s, retain, works), stamp))
  {
    ListingOfStamps(s, stamp, order);
    PrunedOfStamps(s, retain, works, stamp);
  }

  lemma PrunedOfStamps(s: seq<nat>, retain: nat, works: nat, stamp: nat -> Backup)
    ensures Pruned(Stamped(s, stamp), retain, works) == Stamped(Pruned(s, retain, works), stamp)
  {
  }

  /* What is kept */

  /** The newest `k` of `n` deployments. */
  function Newest(n: nat, k: nat): (r: seq<nat>)
    requires k <= n
    ensures |r| == k
  {
    seq(k, i requires 0 <= i < k => n - 1 - i)
  }

  function Smaller(a: nat, b: nat): nat {
    if a < b then a else b
  }

  lemma PrunedKeepsNewest(there: seq<nat>, n: nat, retain: nat, works: nat)
    requires Smaller(retain, n) <= |there| && there[..Smaller(retain, n)] == Newest(n, Smaller(retain, n))
    ensures Smaller(retain, n) <= |Pruned(there, retain, works)|
    ensures Pruned(there, retain, works)[..Smaller(retain, n)] == Newest(n, Smaller(retain, n))
  {
    var m := Smaller(retain, n);
    if |there| > retain {
      assert m <= retain;
      assert there[..retain][..m] == there[..m];
      assert forall t: seq<nat> :: (there[..retain] + t)[..m] == there[..retain][..m];
    }
  }

  /** The newest `retain` backups are always there. After a pruning that removes all
      it should, nothing else is. */
  lemma {:induction false} KeptIsNewest(runs: seq<Outcome>, retain: nat)
    ensures Smaller(retain, |runs|) <= |Kept(runs, retain)|
    ensures Kept(runs, retain)[..Smaller(retain, |runs|)] == Newest(|runs|, Smaller(retain, |runs|))
    ensures PrunedFully(runs, retain) ==> Kept(runs, retain) == Newest(|runs|, Smaller(retain, |runs|))
    decreases |runs|
  {
    if runs != [] {
      var n := |runs| - 1;
      KeptIsNewest(runs[..n], retain);
      NewestOneMore(Kept(runs[..n], retain), n, retain);
      var there := [n] + Kept(runs[..n], retain);
      if runs[n].Committed? {
        PrunedKeepsNewest(there, n + 1, retain, runs[n].works);
        if PrunedFully(runs, retain) {
          FewerThanAll(runs[..n], retain);
          assert Kept(runs, retain) == there[..Smaller(retain, n + 1)];
        }
      }
    }
  }

  lemma NewestOneMore(kept: seq<nat>, n: nat, retain: nat)
    requires Smaller(retain, n) <= |kept| && kept[..Smaller(retain, n)] == Newest(n, Smaller(retain, n))
    ensures Smaller(retain, n + 1) <= |[n] + kept|
    ensures ([n] + kept)[..Smaller(retain, n + 1)] == Newest(n + 1, Smaller(retain, n + 1))
  {
    var m := Smaller(retain, n + 1);
    forall i | 0 <= i < m ensures ([n] + kept)[i] == n - i {
      if i > 0 {
        assert kept[i - 1] == kept[..Smaller(retain, n)][i - 1];
      }
    }
  }

  lemma {:induction false} FewerThanAll(runs: seq<Outcome>, retain: nat)
    ensures |Kept(runs, retain)| <= |runs|
    decreases |runs|
  {
    if runs != [] {
      FewerThanAll(runs[..|runs| - 1], retain);
    }
  }

  lemma InNewest(n: nat, k: nat, i: nat)
    requires k <= n && i < n
    ensures i in Newest(n, k) <==> n - k <= i
  {
    if n - k <= i {
      assert Newest(n, k)[n - 1 - i] == i;
    }
  }

  lemma NewestAreKept(runs: seq<Outcome>, retain: nat, i: nat)
    requires i < |runs|
    ensures |runs| - retain <= i ==> i in Kept(runs, retain)
    ensures PrunedFully(runs, retain) ==> (i in Kept(runs, retain) <==> |runs| - retain <= i)
  {
    KeptIsNewest(runs, retain);
    InNewest(|runs|, Smaller(retain, |runs|), i);
    var m := Smaller(retain, |runs|);
    assert forall x :: x in Kept(runs, retain)[..m] ==> x in Kept(runs, retain);
  }

  /* The backups of successful deployments */

  function Successes(runs: seq<Outcome>): nat {
    if runs == [] then 0 else (if runs[0].Committed? then 1 else 0) + Successes(runs[1..])
  }

  /** The backups of the last `retain` committed deployments are all there. */
  ghost predicate LastSuccessfulKept(runs: seq<Outcome>, retain: nat) {
    forall i :: 0 <= i < |runs| && runs[i].Committed? && Successes(runs[i + 1..]) < retain ==> i in Kept(runs, retain)
  }

  lemma {:induction false} SuccessesOfSuffix(runs: seq<Outcome>, i: nat, j: nat)
    requires i <= j <= |runs|
    ensures Successes(runs[j..]) <= Successes(runs[i..]) <= Successes(runs[j..]) + (j - i)
    ensures (forall k :: i <= k < j ==> runs[k].Committed?) <==> Successes(runs[i..]) == Successes(runs[j..]) + (j - i)
    ensures (forall k :: i <= k < j ==> runs[k].Failed?) ==> Successes(runs[i..]) == Successes(runs[j..])
    decreases j - i
  {
    if i < j {
      assert runs[i..][0] == runs[i] && runs[i..][1..] == runs[i + 1..];
      SuccessesOfSuffix(runs, i + 1, j);
    }
  }

  lemma NoFailureKeeps(runs: seq<Outcome>, m: nat, i: nat)
    requires i < m <= |runs| && forall k :: m <= k < |runs| ==> runs[k].Committed?
    ensures Successes(runs[i + 1..]) >= |runs| - m
  {
    SuccessesOfSuffix(runs, m, |runs|);
    SuccessesOfSuffix(runs, i + 1, m);
  }

  lemma FailureEvicts(runs: seq<Outcome>, m: nat, f: nat, i: nat)
    requires i < m <= f < |runs| && runs[f].Failed?
    requires forall k :: i < k < m ==> runs[k].Failed?
    ensures Successes(runs[i + 1..]) < |runs| - m
  {
    assert runs[|runs|..] == [];
    SuccessesOfSuffix(runs, m, |runs|);
    SuccessesOfSuffix(runs, i + 1, m);
  }

  /** None of the last `retain` deployments failed, or none before them committed. */
  predicate Undisturbed(runs: seq<Outcome>, retain: nat) {
    || (forall i :: 0 <= i < |runs| && |runs| - retain <= i ==> runs[i].Committed?)
    || (forall i :: 0 <= i < |runs| - retain ==> runs[i].Failed?)
  }

  /** The number of deployments up to the last that committed. */
  function UpToLastSuccess(runs: seq<Outcome>): (n: nat)
    ensures n <= |runs| && (n > 0 ==> runs[n - 1].Committed?)
    ensures forall i :: n <= i < |runs| ==> runs[i].Failed?
  {
    if runs == [] then 0
    else if runs[|runs| - 1].Committed? then |runs|
    else UpToLastSuccess(runs[..|runs| - 1])
  }

  lemma UndisturbedKeeps(runs: seq<Outcome>, retain: nat)
    requires Undisturbed(runs, retain)
    ensures LastSuccessfulKept(runs, retain)
  {
    forall i | 0 <= i < |runs| && runs[i].Committed? && Successes(runs[i + 1..]) < retain
      ensures i in Kept(runs, retain)
    {
      NewestAreKept(runs, retain, i);
      if i < |runs| - retain {
        NoFailureKeeps(runs, |runs| - retain, i);
      }
    }
  }

  lemma DisturbedEvicts(runs: seq<Outcome>, retain: nat)
    requires PrunedFully(runs, retain) && !Undisturbed(runs, retain)
    ensures !LastSuccessfulKept(runs, retain)
  {
    var m := |runs| - retain;
    var f :| 0 <= f < |runs| && m <= f && !runs[f].Committed?;
    var i := LastSuccessBefore(runs, m);
    FailureEvicts(runs, m, f, i);
    NewestAreKept(runs, retain, i);
  }

  /** Failed deployments after the last success change nothing. */
  lemma {:induction false} LaterFailures(runs: seq<Outcome>, retain: nat)
    ensures LastSuccessfulKept(runs, retain) <==> LastSuccessfulKept(runs[..UpToLastSuccess(runs)], retain)
    decreases |runs|
  {
    var n := |runs| - 1;
    if runs != [] && runs[n].Failed? {
      LaterFailures(runs[..n], retain);
      assert runs[..n][..UpToLastSuccess(runs)] == runs[..UpToLastSuccess(runs)];
      OneFailure(runs, retain);
    } else {
      assert runs[..UpToLastSuccess(runs)] == runs;
    }
  }

  lemma OneFailure(runs: seq<Outcome>, retain: nat)
    requires runs != [] && runs[|runs| - 1].Failed?
    ensures LastSuccessfulKept(runs, retain) <==> LastSuccessfulKept(runs[..|runs| - 1], retain)
  {
    var n := |runs| - 1;
    forall i | 0 <= i < n ensures IsLastSuccessKept(runs, retain, i) <==> IsLastSuccessKept(runs[..n], retain, i) {
      SameWithoutFailure(runs, retain, i);
    }
    KeptOneByOne(runs, retain);
    KeptOneByOne(runs[..n], retain);
  }

  predicate IsLastSuccessKept(runs: seq<Outcome>, retain: nat, i: nat)
    requires i < |runs|
  {
    runs[i].Committed? && Successes(runs[i + 1..]) < retain ==> i in Kept(runs, retain)
  }

  lemma KeptOneByOne(runs: seq<Outcome>, retain: nat)
    ensures LastSuccessfulKept(runs, retain) <==> forall i :: 0 <= i < |runs| ==> IsLastSuccessKept(runs, retain, i)
  {
    if forall i :: 0 <= i < |runs| ==> IsLastSuccessKept(runs, retain, i) {
      forall i | 0 <= i < |runs| && runs[i].Committed? && Successes(runs[i + 1..]) < retain
        ensures i in Kept(runs, retain)
      {
        assert IsLastSuccessKept(runs, retain, i);
      }
    }
  }

  lemma SameWithoutFailure(runs: seq<Outcome>, retain: nat, i: nat)
    requires i < |runs| - 1 && runs[|runs| - 1].Failed?
    ensures IsLastSuccessKept(runs, retain, i) <==> IsLastSuccessKept(runs[..|runs| - 1], retain, i)
  {
    var n := |runs| - 1;
    assert Kept(runs, retain) == [n] + Kept(runs[..n], retain);
    FailureAtEnd(runs[i + 1..]);
    assert runs[i + 1..][..n - i - 1] == runs[..n][i + 1..];
  }

  lemma {:induction false} FailureAtEnd(runs: seq<Outcome>)
    requires runs != [] && runs[|runs| - 1].Failed?
    ensures Successes(runs) == Successes(runs[..|runs| - 1])
  {
    if |runs| > 1 {
      FailureAtEnd(runs[1..]);
      assert runs[1..][..|runs| - 2] == runs[..|runs| - 1][1..];
    }
  }

  /** After any sequence of deployments, look at those up to the last that committed.
      The last `retain` successful backups are there if none of the last `retain` of
      these failed or none before them committed, and only then, unless the last
      pruning could not remove all it should. */
  lemma SuccessfulBackupsAreKept(runs: seq<Outcome>, retain: nat)
    ensures Undisturbed(runs[..UpToLastSuccess(runs)], retain) ==> LastSuccessfulKept(runs, retain)
    ensures PrunedFully(runs[..UpToLastSuccess(runs)], retain) || UpToLastSuccess(runs) == 0 ==>
        (LastSuccessfulKept(runs, retain) <==> Undisturbed(runs[..UpToLastSuccess(runs)], retain))
  {
    var start := runs[..UpToLastSuccess(runs)];
    LaterFailures(runs, retain);
    if Undisturbed(start, retain) {
      UndisturbedKeeps(start, retain);
    } else if PrunedFully(start, retain) {
      DisturbedEvicts(start, retain);
    }
  }

  lemma {:induction false} LastSuccessBefore(runs: seq<Outcome>, m: nat) returns (i: nat)
    requires m <= |runs| && exists k :: 0 <= k < m && !runs[k].Failed?
    ensures i < m && runs[i].Committed? && forall k :: i < k < m ==> runs[k].Failed?
    decreases m
  {
    if runs[m - 1].Committed? {
      i := m - 1;
    } else {
      i := LastSuccessBefore(runs, m - 1);
    }
  }

  /** Two failures push the backup of the first success out, with three to keep. */
  lemma FailuresEvictASuccess()
    ensures Kept([Committed(0), Failed, Failed, Committed(1)], 3) == [3, 2, 1]
    ensures !LastSuccessfulKept([Committed(0), Failed, Failed, Committed(1)], 3)
  {
    var runs := [Committed(0), Failed, Failed, Committed(1)];
    assert runs[..3] == [Committed(0), Failed, Failed] && runs[..3][..2] == [Committed(0), Failed];
    assert runs[..3][..2][..1] == [Committed(0)] && runs[..3][..2][..1][..0] == [];
    assert Kept(runs[..3][..2][..1], 3) == [0] && Kept(runs[..3], 3) == [2, 1, 0];
    KeptIsNewest(runs, 3);
    assert runs[1..] == [Failed, Failed, Committed(1)] && runs[0].Committed?;
    assert runs[1..][1..] == [Failed, Committed(1)] && runs[1..][1..][1..] == [Committed(1)];
    assert runs[1..][1..][1..][1..] == [];
    assert Successes([Committed(1)]) == 1 + Successes([]) && Successes([Failed, Committed(1)]) == 1;
    assert Successes(runs[1..]) == 1;
  }
}
