/**
 How fast a backlog of pending captures drains: crawls with a budget that do not
 overlap, among any other transactions that add no mention, when every host answers
 and nothing but a capture throws.
 */
module Backlog {
  import opened Text
  import opened Database
  import opened Store
  import opened CapturePipeline
  import opened Crawler
  import opened CaptureLoop
  import opened EvidenceRows
  import opened Transactions
  import opened Frames
  import opened CrawlRuns

  // ----- The measure -----

  /** Captures a mention may still cost. */
  function Remaining(db: Db, id: string): nat {
    if IsPending(db, id) && db.tables.mentions[id].captureAttempts < MAX_CAPTURE_ATTEMPTS
    then MAX_CAPTURE_ATTEMPTS - db.tables.mentions[id].captureAttempts else 0
  }

  function Sum(db: Db, ids: seq<string>): nat {
    if ids == [] then 0 else Sum(db, ids[..|ids| - 1]) + Remaining(db, ids[|ids| - 1])
  }

  lemma {:induction false} SumDrops(db: Db, d: Db, ids: seq<string>, done: set<string>)
    requires Distinct(ids) && done <= (set x | x in ids)
    requires forall id :: Remaining(d, id) <= Remaining(db, id)
    requires forall id <- done :: Remaining(d, id) < Remaining(db, id)
    ensures Sum(d, ids) + |done| <= Sum(db, ids)
  {
    hide Remaining;
    if ids != [] {
      var last, rest := ids[|ids| - 1], ids[..|ids| - 1];
      assert ids == rest + [last];
      assert forall x :: x in done - {last} ==> x in rest;
      SumDrops(db, d, rest, done - {last});
      if last in done {
        assert done == (done - {last}) + {last};
      } else {
        assert done - {last} == done;
      }
    }
  }

  lemma {:induction false} SumAtMost(db: Db, ids: seq<string>)
    ensures Sum(db, ids) <= MAX_CAPTURE_ATTEMPTS * |ids|
  {
    if ids != [] {
      SumAtMost(db, ids[..|ids| - 1]);
    }
  }

  lemma OneMore(s: set<string>, rest: seq<string>, last: string)
    ensures |s * (set x | x in rest + [last])| <= |s * (set x | x in rest)| + if last in s then 1 else 0
  {
    var before, all := s * (set x | x in rest), s * (set x | x in rest + [last]);
    if last in s {
      assert all == before + {last};
    } else {
      assert all == before;
    }
  }

  /** Every pending mention costs at least one capture. */
  lemma {:induction false} SumAtLeast(db: Db, ids: seq<string>)
    requires Distinct(ids) && forall id <- PendingIds(db) :: Remaining(db, id) > 0
    ensures |PendingIds(db) * (set x | x in ids)| <= Sum(db, ids)
  {
    hide Remaining, PendingIds;
    if ids == [] {
      assert PendingIds(db) * (set x | x in ids) == {};
    } else {
      SumAtLeast(db, ids[..|ids| - 1]);
      OneMore(PendingIds(db), ids[..|ids| - 1], ids[|ids| - 1]);
      assert ids == ids[..|ids| - 1] + [ids[|ids| - 1]];
    }
  }

  lemma {:induction false} Enumerate(s: set<string>) returns (ids: seq<string>)
    ensures Distinct(ids) && |ids| == |s| && (set x | x in ids) == s
  {
    if s == {} {
      ids := [];
    } else {
      var x :| x in s;
      var rest := Enumerate(s - {x});
      ids := rest + [x];
      assert forall y :: y in rest <==> y in s - {x};
      assert forall y :: y in ids <==> y in rest || y == x;
    }
  }

  /** Pending mentions have attempts left, in every world of crawls that do not overlap. */
  lemma PendingRemain(w: World)
    requires Exclusive(w)
    ensures forall id :: id in PendingIds(w.r.db) <==> Remaining(w.r.db, id) > 0
    ensures forall id :: Remaining(w.r.db, id) <= MAX_CAPTURE_ATTEMPTS
  {
    hide FullEvidence, Bare;
    forall id ensures id in PendingIds(w.r.db) <==> Remaining(w.r.db, id) > 0 {
      assert Whole(w.r.db.tables, id);
    }
  }

  lemma CardinalityMonotone(a: set<string>, b: set<string>)
    requires a <= b
    ensures |a| <= |b|
  {
    assert b == a + (b - a);
  }

  lemma SubsetOfSize(a: set<string>, b: set<string>)
    requires a <= b && |a| == |b|
    ensures a == b
  {
    assert b == a + (b - a) && |b| == |a| + |b - a|;
    assert b - a == {};
  }

  // ----- The batch ahead -----

  function IdsOf(batch: seq<(string, string)>): set<string> {
    if batch == [] then {} else {batch[0].0} + IdsOf(batch[1..])
  }

  lemma {:induction false} IdsOfExact(batch: seq<(string, string)>)
    ensures forall id :: id in IdsOf(batch) <==> exists i :: 0 <= i < |batch| && batch[i].0 == id
  {
    if batch != [] {
      var rest := batch[1..];
      IdsOfExact(rest);
      forall id ensures id in IdsOf(batch) <==> exists i :: 0 <= i < |batch| && batch[i].0 == id {
        if id in IdsOf(rest) {
          var i :| 0 <= i < |rest| && rest[i].0 == id;
          assert batch[i + 1].0 == id;
        }
        assert forall i :: 0 < i < |batch| ==> batch[i] == rest[i - 1];
      }
    }
  }

  lemma {:induction false} IdsOfSize(batch: seq<(string, string)>)
    requires forall i, j :: 0 <= i < j < |batch| ==> batch[i].0 != batch[j].0
    ensures |IdsOf(batch)| == |batch|
  {
    if batch != [] {
      IdsOfExact(batch[1..]);
      IdsOfSize(batch[1..]);
    }
  }

  /** What is ahead of the one crawl at work. */
  ghost function Ahead(w: World): set<string> {
    if w.crawls == map[] then {} else var p :| p in w.crawls; IdsOf(w.crawls[p])
  }

  lemma AheadIs(w: World, pid: nat)
    requires Exclusive(w)
    ensures pid in w.crawls ==> Ahead(w) == IdsOf(w.crawls[pid])
    ensures w.crawls == map[] ==> Ahead(w) == {}
  {
    hide AllWhole, Owed;
  }

  lemma OwedTail(db: Db, batch: seq<(string, string)>)
    requires batch != [] && Owed(db, batch)
    ensures batch[0].0 !in IdsOf(batch[1..]) && IdsOf(batch[1..]) == IdsOf(batch) - {batch[0].0}
  {
    IdsOfExact(batch[1..]);
  }

  lemma BatchIds(db: Db, budget: nat, batch: seq<(string, string)>)
    requires IsBatch(db, budget, batch)
    ensures IdsOf(batch) <= PendingIds(db)
    ensures |IdsOf(batch)| == (if budget < |PendingIds(db)| then budget else |PendingIds(db)|)
    ensures |PendingIds(db)| <= budget ==> IdsOf(batch) == PendingIds(db)
  {
    IdsOfExact(batch);
    IdsOfSize(batch);
    if |PendingIds(db)| <= budget {
      SubsetOfSize(IdsOf(batch), PendingIds(db));
    }
  }

  // ----- Runs that drain -----

  /** The world after more actions, with crawls that do not overlap. */
  ghost function After(sha: Digest, norm: UrlNorm, w: World, actions: seq<Action>): World {
    if actions == [] then w
    else Next(sha, norm, After(sha, norm, w, actions[..|actions| - 1]), actions[|actions| - 1], true)
  }

  /** No mention is added, crawls have this budget, hosts answer, visits commit, and a crawl ends when it is through. */
  ghost predicate SmoothStep(sha: Digest, norm: UrlNorm, w: World, a: Action, budget: nat) {
    match a
    case Do(m) => Next(sha, norm, w, a, true).r.db.tables.mentions.Keys == w.r.db.tables.mentions.Keys
    case StartCrawl(_, b, _) => b == budget
    case VisitNext(pid, visit, commits, _) =>
      pid in w.crawls && w.crawls[pid] != [] ==>
        visit != Wait && commits && Settle(sha, w.r, w.crawls[pid][0].0, w.crawls[pid][0].1, visit).Some?
    case EndCrawl(pid) => pid in w.crawls ==> w.crawls[pid] == []
  }

  ghost predicate Smooth(sha: Digest, norm: UrlNorm, w: World, actions: seq<Action>, budget: nat) {
    actions != [] ==>
      && Smooth(sha, norm, w, actions[..|actions| - 1], budget)
      && SmoothStep(sha, norm, After(sha, norm, w, actions[..|actions| - 1]), actions[|actions| - 1], budget)
  }

  ghost predicate Begins(w: World, a: Action) {
    a.StartCrawl? && w.crawls == map[] && IsBatch(w.r.db, a.budget, a.batch)
  }

  predicate Visits(w: World, a: Action) {
    a.VisitNext? && a.pid in w.crawls && w.crawls[a.pid] != []
  }

  /** How many crawls began, and how many mentions they visited. */
  ghost function CrawlsBegun(sha: Digest, norm: UrlNorm, w: World, actions: seq<Action>): nat {
    if actions == [] then 0
    else
      var before := actions[..|actions| - 1];
      CrawlsBegun(sha, norm, w, before) + if Begins(After(sha, norm, w, before), actions[|actions| - 1]) then 1 else 0
  }

  ghost function VisitsMade(sha: Digest, norm: UrlNorm, w: World, actions: seq<Action>): nat {
    if actions == [] then 0
    else
      var before := actions[..|actions| - 1];
      VisitsMade(sha, norm, w, before) + if Visits(After(sha, norm, w, before), actions[|actions| - 1]) then 1 else 0
  }

  /** Once the crawl at work is through, at most k more are needed. */
  ghost predicate Within(w: World, budget: nat, ids: seq<string>, k: nat) {
    || (k >= 3 && Sum(w.r.db, ids) < budget * (k - 2) + |Ahead(w)|)
    || (&& |PendingIds(w.r.db)| < budget
        && forall id :: Remaining(w.r.db, id) <= k + (if id in Ahead(w) then 1 else 0))
  }

  /** `ids` lists all that is pending, and will be. */
  ghost predicate Lists(w: World, ids: seq<string>) {
    Distinct(ids) && PendingIds(w.r.db) <= (set x | x in ids)
  }

  // ----- Single steps -----

  lemma SameRemaining(t: Db, u: Db)
    requires SameCaptures(t.tables, u.tables) && t.tables.mentions.Keys == u.tables.mentions.Keys
    ensures forall id :: Remaining(u, id) == Remaining(t, id)
    ensures PendingIds(u) == PendingIds(t)
  {
  }

  lemma DoRemaining(sha: Digest, norm: UrlNorm, w: World, m: Move, budget: nat)
    requires Exclusive(w) && SmoothStep(sha, norm, w, Do(m), budget)
    ensures var v := Next(sha, norm, w, Do(m), true);
      v.crawls == w.crawls && PendingIds(v.r.db) == PendingIds(w.r.db)
      && forall id :: Remaining(v.r.db, id) == Remaining(w.r.db, id)
  {
    hide Exec, SameCaptures, SameEvidence, Whole, Owed, Remaining;
    if !m.txn.Visited? && m.commits && Exec(sha, norm, w.r, m.txn).Some? {
      ExecFrame(sha, norm, w.r, m.txn);
      SameRemaining(w.r.db, Exec(sha, norm, w.r, m.txn).value.db);
    }
  }

  lemma OthersRemain(db: Db, d: Db, id: string)
    requires db.tables.mentions.Keys == d.tables.mentions.Keys
    requires forall k :: k in db.tables.mentions && k != id ==> d.tables.mentions[k] == db.tables.mentions[k]
    ensures forall k :: k != id ==> Remaining(d, k) == Remaining(db, k)
    ensures id in PendingIds(db) ==> PendingIds(d) <= PendingIds(db)
  {
  }

  lemma SettleMoves(sha: Digest, r: Record, id: string, url: string, v: Visit)
    requires RowsKeyed(r.db.tables) && IsPending(r.db, id) && v != Wait && Settle(sha, r, id, url, v).Some?
    requires r.db.tables.mentions[id].captureAttempts < MAX_CAPTURE_ATTEMPTS
    ensures var d := Settle(sha, r, id, url, v).value.db;
      && PendingIds(d) <= PendingIds(r.db) && Remaining(d, id) < Remaining(r.db, id)
      && forall k :: k != id ==> Remaining(d, k) == Remaining(r.db, k)
  {
    hide Settle, CaptureRows, RequestRows, Bare, IsEvidence, KeepsArtifacts, SameRowsOf;
    if v.Fetched? {
      StoredOthers(sha, r, id, url, v.evidence);
    } else {
      UnstoredRow(sha, r, id, url, v);
    }
    OthersRemain(r.db, Settle(sha, r, id, url, v).value.db, id);
  }

  lemma VisitRemaining(sha: Digest, norm: UrlNorm, w: World, a: Action, budget: nat)
    requires Exclusive(w) && Visits(w, a) && SmoothStep(sha, norm, w, a, budget)
    ensures var v, id := Next(sha, norm, w, a, true), w.crawls[a.pid][0].0;
      && v.crawls == w.crawls[a.pid := w.crawls[a.pid][1..]]
      && PendingIds(v.r.db) <= PendingIds(w.r.db) && id in PendingIds(w.r.db)
      && Remaining(v.r.db, id) < Remaining(w.r.db, id)
      && forall k :: k != id ==> Remaining(v.r.db, k) == Remaining(w.r.db, k)
  {
    hide Settle, FullEvidence, Bare, OthersSame;
    var (id, url) := w.crawls[a.pid][0];
    OwedFirst(w.r.db, w.crawls[a.pid]);
    assert Whole(w.r.db.tables, id);
    SettleMoves(sha, w.r, id, url, a.visit);
  }

  lemma InAhead(batch: seq<(string, string)>)
    requires batch != []
    ensures batch[0].0 in IdsOf(batch)
  {
  }

  lemma VisitWithin(sha: Digest, norm: UrlNorm, w: World, a: Action, budget: nat, ids: seq<string>, k: nat)
    requires Exclusive(w) && Visits(w, a) && SmoothStep(sha, norm, w, a, budget)
    requires Lists(w, ids) && Within(w, budget, ids, k)
    ensures var v := Next(sha, norm, w, a, true);
      Lists(v, ids) && Within(v, budget, ids, k) && Sum(v.r.db, ids) + 1 <= Sum(w.r.db, ids)
  {
    hide Next, SmoothStep, AllWhole, Remaining, Sum, Distinct, Owed, IdsOf;
    var v, id := Next(sha, norm, w, a, true), w.crawls[a.pid][0].0;
    VisitRemaining(sha, norm, w, a, budget);
    ExclusiveNext(sha, norm, w, a);
    AheadIs(w, a.pid);
    AheadIs(v, a.pid);
    OwedTail(w.r.db, w.crawls[a.pid]);
    InAhead(w.crawls[a.pid]);
    SumDrops(w.r.db, v.r.db, ids, {id});
    CardinalityMonotone(PendingIds(v.r.db), PendingIds(w.r.db));
    assert |Ahead(w)| == |Ahead(v)| + 1 by {
      assert Ahead(w) == Ahead(v) + {id};
    }
  }

  lemma BeginIs(sha: Digest, norm: UrlNorm, w: World, a: Action)
    requires Begins(w, a)
    ensures Next(sha, norm, w, a, true) == w.(crawls := map[a.pid := a.batch])
  {
  }

  lemma FullBatch(sum: nat, budget: nat, k: nat)
    requires k >= 3 && budget <= sum < budget * (k - 2)
    ensures k >= 4 && sum < budget * (k - 3) + budget
  {
    assert budget * (k - 2) == budget * (k - 3) + budget;
    assert k == 3 ==> budget * (k - 3) == 0;
  }

  lemma BeginWithin(sha: Digest, norm: UrlNorm, w: World, a: Action, ids: seq<string>, k: nat)
    requires Exclusive(w) && Begins(w, a) && a.budget > 0 && PendingIds(w.r.db) != {}
    requires Lists(w, ids) && Within(w, a.budget, ids, k)
    ensures k > 0 && Within(Next(sha, norm, w, a, true), a.budget, ids, k - 1)
  {
    hide AllWhole, Remaining, Sum, Distinct, Owed, IdsOf, IsBatch;
    var v, b := Next(sha, norm, w, a, true), a.budget;
    BeginIs(sha, norm, w, a);
    ExclusiveNext(sha, norm, w, a);
    AheadIs(w, a.pid);
    AheadIs(v, a.pid);
    BatchIds(w.r.db, b, a.batch);
    PendingRemain(w);
    SumAtLeast(w.r.db, ids);
    assert PendingIds(w.r.db) * (set x | x in ids) == PendingIds(w.r.db);
    if |PendingIds(w.r.db)| >= b {
      FullBatch(Sum(w.r.db, ids), b, k);
    } else {
      var id :| id in PendingIds(w.r.db);
      assert Remaining(w.r.db, id) > 0;
    }
  }

  lemma EndAhead(sha: Digest, norm: UrlNorm, w: World, pid: nat, budget: nat)
    requires Exclusive(w) && SmoothStep(sha, norm, w, EndCrawl(pid), budget)
    ensures var v := Next(sha, norm, w, EndCrawl(pid), true); v.r == w.r && Ahead(v) == Ahead(w)
  {
    hide AllWhole, Owed;
    var v := Next(sha, norm, w, EndCrawl(pid), true);
    if pid in w.crawls {
      AheadIs(w, pid);
      assert v.crawls == map[];
    } else {
      assert v.crawls == w.crawls;
    }
  }

  lemma {:induction false} SameSum(d: Db, e: Db, ids: seq<string>)
    requires forall id :: Remaining(e, id) == Remaining(d, id)
    ensures Sum(e, ids) == Sum(d, ids)
  {
    if ids != [] {
      SameSum(d, e, ids[..|ids| - 1]);
    }
  }

  lemma SameWithin(w: World, v: World, budget: nat, ids: seq<string>, k: nat)
    requires Ahead(v) == Ahead(w) && PendingIds(v.r.db) == PendingIds(w.r.db)
    requires forall id :: Remaining(v.r.db, id) == Remaining(w.r.db, id)
    ensures Sum(v.r.db, ids) == Sum(w.r.db, ids)
    ensures Within(w, budget, ids, k) ==> Within(v, budget, ids, k)
  {
    hide Remaining, Sum, Ahead;
    SameSum(w.r.db, v.r.db, ids);
  }

  /** Any smooth step: the bound holds on, one lower for each crawl that begins with work to do. */
  lemma StepWithin(sha: Digest, norm: UrlNorm, w: World, a: Action, budget: nat, ids: seq<string>, k: nat)
    requires budget > 0 && Exclusive(w) && SmoothStep(sha, norm, w, a, budget)
    requires Lists(w, ids) && Within(w, budget, ids, k)
    ensures var v := Next(sha, norm, w, a, true);
      && Exclusive(v) && Lists(v, ids) && PendingIds(v.r.db) <= PendingIds(w.r.db)
      && Sum(v.r.db, ids) + (if Visits(w, a) then 1 else 0) <= Sum(w.r.db, ids)
      && (PendingIds(w.r.db) != {} ==>
            if Begins(w, a) then k > 0 && Within(v, budget, ids, k - 1) else Within(v, budget, ids, k))
  {
    hide AllWhole, Remaining, Sum, Distinct, Owed, IdsOf, IsBatch, Settle, Within;
    ExclusiveNext(sha, norm, w, a);
    match a
    case Do(m) =>
      DoRemaining(sha, norm, w, m, budget);
      SameWithin(w, Next(sha, norm, w, a, true), budget, ids, k);
    case VisitNext(pid, _, _, _) =>
      if Visits(w, a) {
        VisitRemaining(sha, norm, w, a, budget);
        VisitWithin(sha, norm, w, a, budget, ids, k);
      }
    case StartCrawl(pid, _, _) =>
      if Begins(w, a) && PendingIds(w.r.db) != {} {
        BeginWithin(sha, norm, w, a, ids, k);
      }
    case EndCrawl(pid) =>
      var v := Next(sha, norm, w, a, true);
      AheadIs(w, pid);
      AheadIs(v, pid);
      EndAhead(sha, norm, w, pid, budget);
      SameWithin(w, v, budget, ids, k);
  }

  // ----- The bound -----

  lemma WithinNone(w: World, budget: nat, ids: seq<string>)
    requires budget > 0 && Exclusive(w) && PendingIds(w.r.db) == {}
    ensures Within(w, budget, ids, 3)
  {
    hide Exclusive, Remaining;
    PendingRemain(w);
  }

  lemma {:induction false} RunWithin(sha: Digest, norm: UrlNorm, w: World, actions: seq<Action>, budget: nat,
                                     ids: seq<string>, k: nat)
    requires budget > 0 && Exclusive(w) && Smooth(sha, norm, w, actions, budget)
    requires Lists(w, ids) && Within(w, budget, ids, k)
    ensures var v, begun := After(sha, norm, w, actions), CrawlsBegun(sha, norm, w, actions);
      && Exclusive(v) && Lists(v, ids)
      && Sum(v.r.db, ids) + VisitsMade(sha, norm, w, actions) <= Sum(w.r.db, ids)
      && (PendingIds(v.r.db) != {} ==> begun <= k && Within(v, budget, ids, k - begun))
  {
    hide Exclusive, Lists, Within, Next, SmoothStep, Begins, Visits, Sum;
    if actions != [] {
      var before, a := actions[..|actions| - 1], actions[|actions| - 1];
      RunWithin(sha, norm, w, before, budget, ids, k);
      var u := After(sha, norm, w, before);
      if PendingIds(u.r.db) != {} {
        StepWithin(sha, norm, u, a, budget, ids, k - CrawlsBegun(sha, norm, w, before));
      } else {
        WithinNone(u, budget, ids);
        StepWithin(sha, norm, u, a, budget, ids, 3);
      }
    }
  }

  lemma FloorBound(x: nat, b: nat)
    requires b > 0
    ensures x < b * (x / b + 1)
  {
    assert x == b * (x / b) + x % b;
  }

  lemma NoneLeft(w: World, budget: nat, ids: seq<string>)
    requires budget > 0 && Exclusive(w) && w.crawls == map[] && Within(w, budget, ids, 0)
    ensures PendingIds(w.r.db) == {}
  {
    hide Exclusive, Remaining;
    PendingRemain(w);
    forall id ensures id !in PendingIds(w.r.db) {
      assert Remaining(w.r.db, id) <= 0;
    }
  }

  lemma StepSettles(sha: Digest, norm: UrlNorm, w: World, a: Action, budget: nat)
    requires Exclusive(w) && SmoothStep(sha, norm, w, a, budget)
    ensures |PendingIds(w.r.db)| <= |PendingIds(Next(sha, norm, w, a, true).r.db)| + if Visits(w, a) then 1 else 0
  {
    hide AllWhole, Remaining, Owed, IsBatch, Settle, Step, Exclusive;
    var v := Next(sha, norm, w, a, true);
    ExclusiveNext(sha, norm, w, a);
    if a.Do? {
      DoRemaining(sha, norm, w, a.move, budget);
    } else if Visits(w, a) {
      var id := w.crawls[a.pid][0].0;
      VisitRemaining(sha, norm, w, a, budget);
      PendingRemain(w);
      PendingRemain(v);
      CardinalityMonotone(PendingIds(w.r.db), PendingIds(v.r.db) + {id});
    }
  }

  /** Nothing is settled but by a visit of its own. */
  lemma {:induction false} VisitsSettle(sha: Digest, norm: UrlNorm, w: World, actions: seq<Action>, budget: nat)
    requires Exclusive(w) && Smooth(sha, norm, w, actions, budget)
    ensures var v := After(sha, norm, w, actions);
      Exclusive(v) && |PendingIds(w.r.db)| <= |PendingIds(v.r.db)| + VisitsMade(sha, norm, w, actions)
  {
    hide Exclusive, Next, SmoothStep, Visits, PendingIds;
    if actions != [] {
      var before, a := actions[..|actions| - 1], actions[|actions| - 1];
      VisitsSettle(sha, norm, w, before, budget);
      ExclusiveNext(sha, norm, After(sha, norm, w, before), a);
      StepSettles(sha, norm, After(sha, norm, w, before), a, budget);
    }
  }

  /**
   With a budget of at least one and n mentions pending, crawls that do not overlap,
   among any transactions that add no mention, make at most 3n visits, and at least one for
   each mention that is settled; and once floor(3n / b) + 3 crawls have begun and all have
   ended, nothing is pending.
   */
  lemma BacklogDrains(sha: Digest, norm: UrlNorm, w: World, actions: seq<Action>, budget: nat)
    requires budget > 0 && Exclusive(w) && w.crawls == map[] && Smooth(sha, norm, w, actions, budget)
    ensures var n, left := |PendingIds(w.r.db)|, |PendingIds(After(sha, norm, w, actions).r.db)|;
      n - left <= VisitsMade(sha, norm, w, actions) <= MAX_CAPTURE_ATTEMPTS * n
    ensures After(sha, norm, w, actions).crawls == map[]
            && CrawlsBegun(sha, norm, w, actions) >= MAX_CAPTURE_ATTEMPTS * |PendingIds(w.r.db)| / budget + 3
            ==> PendingIds(After(sha, norm, w, actions).r.db) == {}
  {
    hide Exclusive, Remaining, Next, After, Smooth, CrawlsBegun, VisitsMade;
    var ids := Enumerate(PendingIds(w.r.db));
    var owed := MAX_CAPTURE_ATTEMPTS * |PendingIds(w.r.db)|;
    var k := owed / budget + 3;
    VisitsSettle(sha, norm, w, actions, budget);
    SumAtMost(w.r.db, ids);
    FloorBound(owed, budget);
    RunWithin(sha, norm, w, actions, budget, ids, k);
    var v := After(sha, norm, w, actions);
    if v.crawls == map[] && CrawlsBegun(sha, norm, w, actions) >= k && PendingIds(v.r.db) != {} {
      NoneLeft(v, budget, ids);
    }
  }
}
