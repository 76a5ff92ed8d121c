/**
 Crawls as processes: each reads its batch of pending mentions in one moment, is on
 the network for any time, and settles them one transaction at a time, while every
 other transaction of the record goes on around it and any of them may die.
 */
module CrawlRuns {
  import opened Wrappers
  import opened Clock
  import opened Database
  import opened Sessions
  import opened Store
  import opened CapturePipeline
  import opened Crawler
  import opened CaptureLoop
  import opened EvidenceRows
  import opened Transactions
  import opened Frames

  /** The batch still ahead of every crawl at work. */
  datatype World = World(r: Record, crawls: map<nat, seq<(string, string)>>)

  datatype Action =
    | Do(move: Move)
    | StartCrawl(pid: nat, budget: nat, batch: seq<(string, string)>)
    | VisitNext(pid: nat, visit: Visit, commits: bool, puts: nat)
    | EndCrawl(pid: nat)

  /** `exclusive`: no crawl starts while another is at work. A step not enabled changes nothing. */
  ghost function Next(sha: Digest, norm: UrlNorm, w: World, a: Action, exclusive: bool): World {
    match a
    case Do(m) => if m.txn.Visited? then w else w.(r := Step(sha, norm, w.r, m))
    case StartCrawl(pid, budget, batch) =>
      if IsBatch(w.r.db, budget, batch) && pid !in w.crawls && (exclusive ==> w.crawls == map[]) then
        w.(crawls := w.crawls[pid := batch])
      else w
    case VisitNext(pid, visit, commits, puts) =>
      if pid in w.crawls && w.crawls[pid] != [] then
        var (id, url) := w.crawls[pid][0];
        var m := Move(Visited(id, url, visit), commits, puts);
        World(Step(sha, norm, w.r, m),
              if commits && Exec(sha, norm, w.r, m.txn).Some? then w.crawls[pid := w.crawls[pid][1..]]
              else w.crawls - {pid})
      else w
    case EndCrawl(pid) => w.(crawls := w.crawls - {pid})
  }

  ghost function RunCrawls(sha: Digest, norm: UrlNorm, actions: seq<Action>, exclusive: bool): World {
    if actions == [] then World(Record(EMPTY, map[]), map[])
    else Next(sha, norm, RunCrawls(sha, norm, actions[..|actions| - 1], exclusive), actions[|actions| - 1], exclusive)
  }

  /** A mention's state, its attempts and its evidence tell one story. */
  ghost predicate Whole(t: Tables, id: string) {
    if id !in t.mentions then Bare(t, Who(id))
    else
      var m := t.mentions[id];
      match m.captureState
      case Captured => FullEvidence(t, Who(id)) && m.captureAttempts < MAX_CAPTURE_ATTEMPTS
      case Failed => Bare(t, Who(id)) && m.captureAttempts == MAX_CAPTURE_ATTEMPTS
      case _ => Bare(t, Who(id)) && m.captureAttempts < MAX_CAPTURE_ATTEMPTS
  }

  ghost predicate AllWhole(t: Tables) {
    RowsKeyed(t) && MentionKinds(t) && forall id :: Whole(t, id)
  }

  /** A mention that is captured, skipped or failed keeps its state, its attempts and its rows. */
  ghost predicate Kept(t: Tables, u: Tables, id: string) {
    id in t.mentions && t.mentions[id].captureState != Pending ==>
      && id in u.mentions && SameCapture(t.mentions[id], u.mentions[id])
      && CaptureRows(u, Who(id)) == CaptureRows(t, Who(id)) && RequestRows(u, Who(id)) == RequestRows(t, Who(id))
  }

  // ----- Which visits are in time -----

  /** The visit finds its mention still pending, or has nothing to write that is not written. */
  predicate InTime(db: Db, id: string, v: Visit) {
    || v.Wait? || IsPending(db, id)
    || (v.Skip? && id in db.tables.mentions && db.tables.mentions[id].captureState == Skipped)
  }

  /** If the step is a visit that commits, it is in time. */
  ghost predicate TimelyStep(sha: Digest, norm: UrlNorm, w: World, a: Action) {
    a.VisitNext? && a.pid in w.crawls && w.crawls[a.pid] != [] && a.commits ==>
      var (id, url) := w.crawls[a.pid][0];
      Settle(sha, w.r, id, url, a.visit).Some? ==> InTime(w.r.db, id, a.visit)
  }

  /** Every visit that commits is in time, as it would be if it looked at its mention again under the lock. */
  ghost predicate Timely(sha: Digest, norm: UrlNorm, actions: seq<Action>, exclusive: bool) {
    actions != [] ==>
      var before := actions[..|actions| - 1];
      && Timely(sha, norm, before, exclusive)
      && TimelyStep(sha, norm, RunCrawls(sha, norm, before, exclusive), actions[|actions| - 1])
  }

  // ----- Transactions around a crawl -----

  lemma WholeKept(t: Tables, u: Tables, id: string)
    requires Whole(t, id) && SameCaptures(t, u) && SameEvidence(t, u, "mention")
    ensures Whole(u, id) && Kept(t, u, id)
  {
    hide SameEvidence, CaptureRows, RequestRows, FullEvidence, Bare;
    SameRows(t, u, Who(id));
    SameFull(t, u, Who(id));
  }

  lemma SelfKept(t: Tables)
    ensures forall id :: Kept(t, t, id)
  {
  }

  lemma DoWhole(sha: Digest, norm: UrlNorm, w: World, m: Move, exclusive: bool)
    requires AllWhole(w.r.db.tables)
    ensures var t, u := w.r.db.tables, Next(sha, norm, w, Do(m), exclusive).r.db.tables;
      AllWhole(u) && forall id :: Kept(t, u, id)
  {
    hide Exec, SameCaptures, SameEvidence, Whole, Kept, MentionKinds;
    var t := w.r.db.tables;
    if !m.txn.Visited? && m.commits && Exec(sha, norm, w.r, m.txn).Some? {
      ExecFrame(sha, norm, w.r, m.txn);
      ExecKinds(sha, norm, w.r, m.txn);
      var u := Exec(sha, norm, w.r, m.txn).value.db.tables;
      forall id ensures Whole(u, id) && Kept(t, u, id) {
        WholeKept(t, u, id);
      }
    } else {
      SelfKept(t);
    }
  }

  // ----- One visit -----

  lemma WholeOther(t: Tables, u: Tables, id: string, k: string)
    requires Whole(t, k) && OthersSame(t, u, id) && k != id
    ensures Whole(u, k) && Kept(t, u, k)
  {
    hide CaptureRows, RequestRows, FullEvidence, Bare, KeepsArtifacts;
    assert SameRowsOf(t, u, k);
    RowsKeepFull(t, u, Who(k));
  }

  /** A visit in time settles its mention or counts an attempt, and leaves the story of every mention whole. */
  lemma SettleWhole(sha: Digest, r: Record, id: string, url: string, v: Visit)
    requires AllWhole(r.db.tables) && InTime(r.db, id, v) && Settle(sha, r, id, url, v).Some?
    ensures var t, u := r.db.tables, Settle(sha, r, id, url, v).value.db.tables;
      RowsKeyed(u) && Whole(u, id) && Kept(t, u, id) && OthersSame(t, u, id)
  {
    hide Settle, OthersSame, KeepsArtifacts, CaptureRows, RequestRows, MentionKinds;
    var t, u := r.db.tables, Settle(sha, r, id, url, v).value.db.tables;
    assert Whole(t, id);
    if v.Fetched? {
      StoredOthers(sha, r, id, url, v.evidence);
      assert IsEvidence(u, Who(id), v.evidence.artifactIds, v.evidence.snapshotId);
    } else {
      UnstoredRow(sha, r, id, url, v);
      StateOthers(t, u, id);
      RowsOf(t, u, Who(id));
      RowsKeepFull(t, u, Who(id));
    }
  }

  lemma VisitWhole(sha: Digest, norm: UrlNorm, w: World, a: Action, exclusive: bool)
    requires AllWhole(w.r.db.tables) && a.VisitNext? && TimelyStep(sha, norm, w, a)
    ensures var t, u := w.r.db.tables, Next(sha, norm, w, a, exclusive).r.db.tables;
      AllWhole(u) && forall id :: Kept(t, u, id)
  {
    hide Settle, Whole, Kept, OthersSame, InTime, MentionKinds;
    var t := w.r.db.tables;
    SelfKept(t);
    if a.pid in w.crawls && w.crawls[a.pid] != [] && a.commits {
      var (id, url) := w.crawls[a.pid][0];
      if Settle(sha, w.r, id, url, a.visit).Some? {
        var u := Settle(sha, w.r, id, url, a.visit).value.db.tables;
        SettleWhole(sha, w.r, id, url, a.visit);
        SettleKinds(sha, w.r, id, url, a.visit);
        forall k ensures Whole(u, k) && Kept(t, u, k) {
          assert Whole(t, k);
          if k != id {
            WholeOther(t, u, id, k);
          }
        }
      }
    }
  }

  /** A timely step keeps every mention's story whole and every settled mention as it is. */
  lemma StepWhole(sha: Digest, norm: UrlNorm, w: World, a: Action, exclusive: bool)
    requires AllWhole(w.r.db.tables) && TimelyStep(sha, norm, w, a)
    ensures var t, u := w.r.db.tables, Next(sha, norm, w, a, exclusive).r.db.tables;
      AllWhole(u) && forall id :: Kept(t, u, id)
  {
    hide AllWhole, Kept, TimelyStep, Exec;
    match a
    case Do(m) => DoWhole(sha, norm, w, m, exclusive);
    case VisitNext(_, _, _, _) => VisitWhole(sha, norm, w, a, exclusive);
    case _ => SelfKept(w.r.db.tables);
  }

  lemma EmptyWhole()
    ensures AllWhole(EMPTY.tables)
  {
  }

  lemma {:induction false} TimelyWhole(sha: Digest, norm: UrlNorm, actions: seq<Action>, exclusive: bool)
    requires Timely(sha, norm, actions, exclusive)
    ensures AllWhole(RunCrawls(sha, norm, actions, exclusive).r.db.tables)
  {
    hide AllWhole, Next, TimelyStep;
    if actions == [] {
      EmptyWhole();
    } else {
      var before := actions[..|actions| - 1];
      TimelyWhole(sha, norm, before, exclusive);
      StepWhole(sha, norm, RunCrawls(sha, norm, before, exclusive), actions[|actions| - 1], exclusive);
    }
  }

  // ----- Theorems -----

  /**
   With any crawls overlapping, crashes, rollbacks and every other transaction anywhere
   between, as long as no visit comes late: a mention is captured exactly when it has
   one artifact of each of the three kinds, no other, and one snapshot request, and
   otherwise it has none of either; it has failed exactly when three captures of it threw.
   */
  lemma CaptureAllOrNothing(sha: Digest, norm: UrlNorm, actions: seq<Action>, exclusive: bool, id: string)
    requires Timely(sha, norm, actions, exclusive)
    requires id in RunCrawls(sha, norm, actions, exclusive).r.db.tables.mentions
    ensures var t := RunCrawls(sha, norm, actions, exclusive).r.db.tables;
      var m := t.mentions[id];
      && (m.captureState == Captured <==> FullEvidence(t, Who(id)))
      && (m.captureState != Captured <==> Bare(t, Who(id)))
      && ArtifactRows(t, Who(id)) == CaptureRows(t, Who(id))
      && (m.captureState == Failed <==> m.captureAttempts == MAX_CAPTURE_ATTEMPTS)
      && m.captureAttempts <= MAX_CAPTURE_ATTEMPTS
  {
    hide Next, Timely, RunCrawls, FullEvidence, Bare;
    TimelyWhole(sha, norm, actions, exclusive);
    var t := RunCrawls(sha, norm, actions, exclusive).r.db.tables;
    assert Whole(t, id);
    MentionRows(t, id);
    FullIsNotBare(t, Who(id));
  }

  /** Captured, skipped and failed mentions keep their state and their rows through every timely step. */
  lemma CaptureFinal(sha: Digest, norm: UrlNorm, actions: seq<Action>, a: Action, exclusive: bool, id: string)
    requires Timely(sha, norm, actions + [a], exclusive)
    ensures Kept(RunCrawls(sha, norm, actions, exclusive).r.db.tables,
                 RunCrawls(sha, norm, actions + [a], exclusive).r.db.tables, id)
  {
    hide Kept, Next, AllWhole, TimelyStep;
    assert (actions + [a])[..|actions|] == actions;
    TimelyWhole(sha, norm, actions, exclusive);
    StepWhole(sha, norm, RunCrawls(sha, norm, actions, exclusive), a, exclusive);
  }

  lemma NewRequest(sha: Digest, r: Record, id: string, url: string, e: Evidence)
    requires Settle(sha, r, id, url, Fetched(e)).Some?
    ensures e.snapshotId !in RequestRows(r.db.tables, Who(id))
  {
    hide StoreEvidence;
    StoreEvidenceExact(sha, r, Who(id), url, e, Who(id));
  }

  lemma LateFetchMoves(sha: Digest, r: Record, id: string, url: string, e: Evidence)
    requires AllWhole(r.db.tables) && id in r.db.tables.mentions && !IsPending(r.db, id)
    requires Settle(sha, r, id, url, Fetched(e)).Some?
    ensures !Kept(r.db.tables, Settle(sha, r, id, url, Fetched(e)).value.db.tables, id)
  {
    hide Settle, OthersSame, CaptureRows, StoreEvidence, Whole, MentionKinds;
    var t := r.db.tables;
    StoredOthers(sha, r, id, url, e);
    NewRequest(sha, r, id, url, e);
    assert e.snapshotId in RequestRows(t, Who(id)) + {e.snapshotId};
  }

  /**
   What a committed visit does to its mention, for any mention it may find: the story
   stays whole and what was settled stays settled exactly when the visit is in time.
   */
  lemma VisitExact(sha: Digest, r: Record, id: string, url: string, v: Visit)
    requires AllWhole(r.db.tables) && id in r.db.tables.mentions && Settle(sha, r, id, url, v).Some?
    ensures var t, u := r.db.tables, Settle(sha, r, id, url, v).value.db.tables;
      AllWhole(u) && Kept(t, u, id) <==> InTime(r.db, id, v)
  {
    hide Settle, OthersSame, Whole, CaptureRows, RequestRows, MentionKinds;
    var t, u := r.db.tables, Settle(sha, r, id, url, v).value.db.tables;
    if InTime(r.db, id, v) {
      SettleWhole(sha, r, id, url, v);
      SettleKinds(sha, r, id, url, v);
      forall k ensures Whole(u, k) {
        if k != id {
          assert Whole(t, k);
          WholeOther(t, u, id, k);
        }
      }
    } else if v.Fetched? {
      LateFetchMoves(sha, r, id, url, v.evidence);
    } else {
      UnstoredRow(sha, r, id, url, v);
    }
  }

  // ----- Crawls that do not overlap are in time -----

  /** Every item of a batch is still pending, once. */
  predicate Owed(db: Db, batch: seq<(string, string)>) {
    && (forall i :: 0 <= i < |batch| ==> IsPending(db, batch[i].0))
    && forall i, j :: 0 <= i < j < |batch| ==> batch[i].0 != batch[j].0
  }

  ghost predicate Exclusive(w: World) {
    && AllWhole(w.r.db.tables)
    && (forall p, q :: p in w.crawls && q in w.crawls ==> p == q)
    && forall p <- w.crawls :: Owed(w.r.db, w.crawls[p])
  }

  lemma OwedFirst(db: Db, batch: seq<(string, string)>)
    requires batch != [] && Owed(db, batch)
    ensures IsPending(db, batch[0].0)
  {
  }

  lemma OwedKept(db: Db, d: Db, batch: seq<(string, string)>)
    requires Owed(db, batch) && SameCaptures(db.tables, d.tables)
    ensures Owed(d, batch)
  {
  }

  lemma OwedRest(db: Db, d: Db, batch: seq<(string, string)>)
    requires batch != [] && Owed(db, batch) && OthersSame(db.tables, d.tables, batch[0].0)
    ensures Owed(d, batch[1..])
  {
  }

  lemma ExclusiveTimely(sha: Digest, norm: UrlNorm, w: World, a: Action)
    requires Exclusive(w)
    ensures TimelyStep(sha, norm, w, a)
  {
    if a.VisitNext? && a.pid in w.crawls && w.crawls[a.pid] != [] {
      OwedFirst(w.r.db, w.crawls[a.pid]);
    }
  }

  lemma DoOwed(sha: Digest, norm: UrlNorm, w: World, m: Move)
    requires Exclusive(w)
    ensures forall p <- w.crawls :: Owed(Next(sha, norm, w, Do(m), true).r.db, w.crawls[p])
  {
    hide Exec, Whole, Owed, SameCaptures, SameEvidence;
    if !m.txn.Visited? && m.commits && Exec(sha, norm, w.r, m.txn).Some? {
      ExecFrame(sha, norm, w.r, m.txn);
      forall p | p in w.crawls ensures Owed(Exec(sha, norm, w.r, m.txn).value.db, w.crawls[p]) {
        OwedKept(w.r.db, Exec(sha, norm, w.r, m.txn).value.db, w.crawls[p]);
      }
    }
  }

  lemma VisitOwed(sha: Digest, norm: UrlNorm, w: World, a: Action)
    requires Exclusive(w) && a.VisitNext?
    ensures var v := Next(sha, norm, w, a, true); forall p <- v.crawls :: Owed(v.r.db, v.crawls[p])
  {
    hide Settle, Whole, OthersSame, Owed;
    if a.pid in w.crawls && w.crawls[a.pid] != [] && a.commits {
      var (id, url) := w.crawls[a.pid][0];
      if Settle(sha, w.r, id, url, a.visit).Some? {
        OwedFirst(w.r.db, w.crawls[a.pid]);
        SettleWhole(sha, w.r, id, url, a.visit);
        OwedRest(w.r.db, Settle(sha, w.r, id, url, a.visit).value.db, w.crawls[a.pid]);
      }
    }
  }

  lemma ExclusiveNext(sha: Digest, norm: UrlNorm, w: World, a: Action)
    requires Exclusive(w)
    ensures Exclusive(Next(sha, norm, w, a, true))
  {
    hide Exec, AllWhole, TimelyStep;
    ExclusiveTimely(sha, norm, w, a);
    StepWhole(sha, norm, w, a, true);
    match a
    case Do(m) => DoOwed(sha, norm, w, m);
    case VisitNext(_, _, _, _) => VisitOwed(sha, norm, w, a);
    case _ =>
  }

  lemma ExclusiveStart()
    ensures Exclusive(World(Record(EMPTY, map[]), map[]))
  {
    EmptyWhole();
  }

  /** Crawls that never overlap are never late, so both theorems hold of them. */
  lemma {:induction false} ExclusiveRun(sha: Digest, norm: UrlNorm, actions: seq<Action>)
    ensures Timely(sha, norm, actions, true) && Exclusive(RunCrawls(sha, norm, actions, true))
  {
    hide Next, Exclusive, TimelyStep;
    if actions == [] {
      ExclusiveStart();
    } else {
      var before := actions[..|actions| - 1];
      ExclusiveRun(sha, norm, before);
      ExclusiveTimely(sha, norm, RunCrawls(sha, norm, before, true), actions[|actions| - 1]);
      ExclusiveNext(sha, norm, RunCrawls(sha, norm, before, true), actions[|actions| - 1]);
    }
  }

  // ----- The log knows the final attempts -----

  /** The last capture decision the log holds for a mention: its state and attempts. */
  function LastDecision(log: seq<Event>, id: string): Option<(CaptureState, nat)> {
    if log == [] then None
    else
      match log[|log| - 1]
      case CaptureStateChanged(k, state, attempts) =>
        if k == id then Some((state, attempts)) else LastDecision(log[..|log| - 1], id)
      case _ => LastDecision(log[..|log| - 1], id)
  }

  lemma {:induction false} DecisionKept(a: seq<Event>, b: seq<Event>, x: Txn, id: string)
    requires Appends(a, b, x) && (x.Visited? ==> x.mentionId != id)
    ensures LastDecision(b, id) == LastDecision(a, id)
    decreases |b|
  {
    if |a| < |b| {
      assert b[..|b| - 1][..|a|] == b[..|a|];
      DecisionKept(a, b[..|b| - 1], x, id);
    } else {
      assert b[..|a|] == b;
    }
  }

  /** What is decided of a mention is what the log last said; nothing is said before. */
  ghost predicate Told(db: Db, id: string) {
    LastDecision(db.log, id) ==
    if id in db.tables.mentions && db.tables.mentions[id].captureState != Pending
    then Some((db.tables.mentions[id].captureState, db.tables.mentions[id].captureAttempts)) else None
  }

  ghost predicate AllTold(db: Db) {
    forall id :: Told(db, id)
  }

  lemma StateTold(db: Db, id: string, state: CaptureState)
    requires RowsKeyed(db.tables) && id in db.tables.mentions && state != Pending
    ensures Told(RecordCaptureState(db, id, state), id)
  {
  }

  lemma SettleTold(sha: Digest, r: Record, id: string, url: string, v: Visit)
    requires RowsKeyed(r.db.tables) && InTime(r.db, id, v) && Told(r.db, id) && Settle(sha, r, id, url, v).Some?
    requires IsPending(r.db, id) ==> r.db.tables.mentions[id].captureAttempts < MAX_CAPTURE_ATTEMPTS
    ensures Told(Settle(sha, r, id, url, v).value.db, id)
  {
    hide StoreEvidence, LastDecision;
    match v
    case Wait =>
    case Skip => StateTold(r.db, id, Skipped);
    case Threw => StateTold(CountAttempt(r.db, id), id, Failed);
    case Fetched(e) =>
      StoreEvidenceKeyed(sha, r, Who(id), url, e);
      StateTold(StoreEvidence(sha, r, Who(id), url, e).value.db, id, Captured);
  }

  lemma DoTold(sha: Digest, norm: UrlNorm, w: World, m: Move, exclusive: bool)
    requires AllWhole(w.r.db.tables) && AllTold(w.r.db)
    ensures AllTold(Next(sha, norm, w, Do(m), exclusive).r.db)
  {
    hide Exec, Whole, SameEvidence, Appends, LastDecision;
    if !m.txn.Visited? && m.commits && Exec(sha, norm, w.r, m.txn).Some? {
      var r := Exec(sha, norm, w.r, m.txn).value;
      ExecFrame(sha, norm, w.r, m.txn);
      ExecLog(sha, norm, w.r, m.txn);
      forall id ensures Told(r.db, id) {
        assert Told(w.r.db, id);
        DecisionKept(w.r.db.log, r.db.log, m.txn, id);
      }
    }
  }

  lemma OtherMention(t: Tables, u: Tables, id: string, k: string)
    requires OthersSame(t, u, id) && k != id
    ensures k in t.mentions <==> k in u.mentions
    ensures k in t.mentions ==> u.mentions[k] == t.mentions[k]
  {
  }

  lemma VisitTold(sha: Digest, norm: UrlNorm, w: World, a: Action, exclusive: bool)
    requires AllWhole(w.r.db.tables) && AllTold(w.r.db) && a.VisitNext? && TimelyStep(sha, norm, w, a)
    ensures AllTold(Next(sha, norm, w, a, exclusive).r.db)
  {
    hide Settle, OthersSame, Appends, LastDecision, InTime;
    if a.pid in w.crawls && w.crawls[a.pid] != [] && a.commits {
      var (id, url) := w.crawls[a.pid][0];
      if Settle(sha, w.r, id, url, a.visit).Some? {
        var s := Settle(sha, w.r, id, url, a.visit).value;
        assert Whole(w.r.db.tables, id);
        SettleWhole(sha, w.r, id, url, a.visit);
        SettleLog(sha, w.r, id, url, a.visit);
        forall k ensures Told(s.db, k) {
          assert Told(w.r.db, k);
          if k == id {
            SettleTold(sha, w.r, id, url, a.visit);
          } else {
            DecisionKept(w.r.db.log, s.db.log, Visited(id, url, a.visit), k);
            OtherMention(w.r.db.tables, s.db.tables, id, k);
          }
        }
      }
    }
  }

  lemma NothingTold()
    ensures AllTold(EMPTY)
  {
  }

  /**
   As long as no visit comes late, the log's last decision about a mention is its state
   and its attempts at that state; about a pending mention there is none. So the
   attempts of failures that were not final are all the log leaves out.
   */
  lemma {:induction false} DecisionsLogged(sha: Digest, norm: UrlNorm, actions: seq<Action>, exclusive: bool)
    requires Timely(sha, norm, actions, exclusive)
    ensures AllTold(RunCrawls(sha, norm, actions, exclusive).r.db)
  {
    hide Told, AllWhole, TimelyStep;
    if actions == [] {
      NothingTold();
    } else {
      var n := |actions| - 1;
      var w := RunCrawls(sha, norm, actions[..n], exclusive);
      DecisionsLogged(sha, norm, actions[..n], exclusive);
      TimelyWhole(sha, norm, actions[..n], exclusive);
      match actions[n]
      case Do(m) => DoTold(sha, norm, w, m, exclusive);
      case VisitNext(_, _, _, _) => VisitTold(sha, norm, w, actions[n], exclusive);
      case _ =>
    }
  }

  // ----- Late visits -----

  /** The mentions of every batch exist, however crawls overlap. */
  ghost predicate Queued(w: World) {
    && RowsKeyed(w.r.db.tables)
    && forall p <- w.crawls :: forall i :: 0 <= i < |w.crawls[p]| ==> w.crawls[p][i].0 in w.r.db.tables.mentions
  }

  lemma SettleKeys(sha: Digest, r: Record, id: string, url: string, v: Visit)
    requires RowsKeyed(r.db.tables) && Settle(sha, r, id, url, v).Some?
    ensures var u := Settle(sha, r, id, url, v).value.db.tables;
      RowsKeyed(u) && u.mentions.Keys == r.db.tables.mentions.Keys
  {
    hide StoreEvidence;
    if v.Fetched? {
      StoreEvidenceKeyed(sha, r, Who(id), url, v.evidence);
    }
  }

  lemma QueuedNext(sha: Digest, norm: UrlNorm, w: World, a: Action, exclusive: bool)
    requires Queued(w)
    ensures Queued(Next(sha, norm, w, a, exclusive))
  {
    hide Settle, SameEvidence;
    match a
    case Do(m) =>
      hide Exec;
      if !m.txn.Visited? && m.commits && Exec(sha, norm, w.r, m.txn).Some? {
        ExecFrame(sha, norm, w.r, m.txn);
      }
    case VisitNext(pid, visit, commits, _) =>
      if pid in w.crawls && w.crawls[pid] != [] {
        var (id, url) := w.crawls[pid][0];
        if commits && Settle(sha, w.r, id, url, visit).Some? {
          SettleKeys(sha, w.r, id, url, visit);
        }
      }
    case _ =>
  }

  lemma QueuedStart()
    ensures Queued(World(Record(EMPTY, map[]), map[]))
  {
  }

  lemma {:induction false} QueuedRun(sha: Digest, norm: UrlNorm, actions: seq<Action>, exclusive: bool)
    ensures Queued(RunCrawls(sha, norm, actions, exclusive))
  {
    hide Next, Queued;
    if actions == [] {
      QueuedStart();
    } else {
      var before := actions[..|actions| - 1];
      QueuedRun(sha, norm, before, exclusive);
      QueuedNext(sha, norm, RunCrawls(sha, norm, before, exclusive), actions[|actions| - 1], exclusive);
    }
  }

  /** Every step of the run left every story whole and everything settled as it was. */
  ghost predicate Steady(sha: Digest, norm: UrlNorm, actions: seq<Action>, exclusive: bool) {
    actions != [] ==>
      var before := actions[..|actions| - 1];
      var t := RunCrawls(sha, norm, before, exclusive).r.db.tables;
      var u := RunCrawls(sha, norm, actions, exclusive).r.db.tables;
      Steady(sha, norm, before, exclusive) && AllWhole(u) && forall id :: Kept(t, u, id)
  }

  lemma LateStep(sha: Digest, norm: UrlNorm, w: World, a: Action, exclusive: bool)
    requires AllWhole(w.r.db.tables) && Queued(w)
    requires var u := Next(sha, norm, w, a, exclusive).r.db.tables;
      AllWhole(u) && forall id :: Kept(w.r.db.tables, u, id)
    ensures TimelyStep(sha, norm, w, a)
  {
    hide Settle, AllWhole, Kept, InTime;
    if a.VisitNext? && a.pid in w.crawls && w.crawls[a.pid] != [] && a.commits {
      var (id, url) := w.crawls[a.pid][0];
      if Settle(sha, w.r, id, url, a.visit).Some? {
        VisitExact(sha, w.r, id, url, a.visit);
      }
    }
  }

  /**
   The exact condition, for any number of overlapping crawls: captures are all or
   nothing and final throughout a run exactly when no visit of the run commits late.
   */
  lemma {:induction false} TimelyExact(sha: Digest, norm: UrlNorm, actions: seq<Action>, exclusive: bool)
    ensures Steady(sha, norm, actions, exclusive) <==> Timely(sha, norm, actions, exclusive)
  {
    hide AllWhole, Kept, Next, TimelyStep, Queued;
    if actions != [] {
      var before, a := actions[..|actions| - 1], actions[|actions| - 1];
      TimelyExact(sha, norm, before, exclusive);
      if Timely(sha, norm, before, exclusive) {
        TimelyWhole(sha, norm, before, exclusive);
        QueuedRun(sha, norm, before, exclusive);
        var w := RunCrawls(sha, norm, before, exclusive);
        if TimelyStep(sha, norm, w, a) {
          StepWhole(sha, norm, w, a, exclusive);
        } else if Steady(sha, norm, actions, exclusive) {
          LateStep(sha, norm, w, a, exclusive);
        }
      }
    }
  }

  const ARRIVAL := Arrival("rss", RawHit("u", "", "", None, None, []), "m", FIRST)

  /** Two crawls read the same pending mention before either settles it; the first fetches it. */
  function Overlap(norm: UrlNorm, second: Visit): seq<Action> {
    [Do(Move(Dedupe([ARRIVAL]), true, 0)), StartCrawl(0, 1, [("m", norm("u"))]), StartCrawl(1, 1, [("m", norm("u"))]),
     VisitNext(0, Fetched(FIRST_FETCH), true, 0), VisitNext(1, second, true, 0)]
  }

  lemma AfterDedupe(sha: Digest, norm: UrlNorm, second: Visit)
    ensures var w := RunCrawls(sha, norm, Overlap(norm, second)[..1], false);
      && w.crawls == map[] && w.r.db.tables == EMPTY.tables.(mentions := map["m" := NewMention(norm, ARRIVAL)])
  {
    var first := Overlap(norm, second)[..1];
    assert first == [Overlap(norm, second)[0]] && first[..0] == [];
    assert [ARRIVAL][..0] == [];
    assert AbsorbAll(norm, EMPTY, [ARRIVAL]) == AddMention(EMPTY, NewMention(norm, ARRIVAL));
  }

  lemma BothStart(sha: Digest, norm: UrlNorm, second: Visit)
    ensures var w := RunCrawls(sha, norm, Overlap(norm, second)[..3], false); var batch := [("m", norm("u"))];
      && w.crawls == map[0 := batch, 1 := batch]
      && w.r.db.tables == EMPTY.tables.(mentions := map["m" := NewMention(norm, ARRIVAL)])
  {
    AfterDedupe(sha, norm, second);
    var all := Overlap(norm, second);
    var w := RunCrawls(sha, norm, all[..1], false);
    assert all[..2][..1] == all[..1] && all[..3][..2] == all[..2];
    assert PendingIds(w.r.db) == {"m"};
    assert IsBatch(w.r.db, 1, [("m", norm("u"))]);
  }

  /** A committed capture visit, by the rows it adds. */
  ghost predicate Fetches(w: World, v: World, pid: nat, id: string, e: Evidence) {
    var t, u := w.r.db.tables, v.r.db.tables;
    && v.crawls == w.crawls[pid := []]
    && RowsKeyed(u) && id in u.mentions && u.mentions[id].captureState == Captured
    && u.artifacts.Keys == t.artifacts.Keys + Ids(e) && u.snapshots.Keys == t.snapshots.Keys + {e.snapshotId}
    && CaptureRows(u, Who(id)) == CaptureRows(t, Who(id)) + Ids(e)
    && RequestRows(u, Who(id)) == RequestRows(t, Who(id)) + {e.snapshotId}
    && (Bare(t, Who(id)) ==> IsEvidence(u, Who(id), e.artifactIds, e.snapshotId))
  }

  lemma FetchAdds(sha: Digest, norm: UrlNorm, w: World, pid: nat, id: string, url: string, e: Evidence)
    requires pid in w.crawls && w.crawls[pid] == [(id, url)]
    requires RowsKeyed(w.r.db.tables) && id in w.r.db.tables.mentions && Fresh(w.r.db.tables, e)
    ensures Fetches(w, Next(sha, norm, w, VisitNext(pid, Fetched(e), true, 0), false), pid, id, e)
  {
    hide StoreEvidence, CaptureRows, RequestRows, IsEvidence, OthersSame;
    StoreEvidenceFresh(sha, w.r, Who(id), url, e);
    StoreEvidenceKeys(sha, w.r, Who(id), url, e);
    StoredOthers(sha, w.r, id, url, e);
  }

  /** The world after the first crawl has stored the mention's evidence, while the second still holds it. */
  lemma FirstFetches(sha: Digest, norm: UrlNorm, second: Visit)
    ensures var all := Overlap(norm, second);
      var w, v := RunCrawls(sha, norm, all[..4], false), RunCrawls(sha, norm, all, false);
      var t := w.r.db.tables;
      && v == Next(sha, norm, w, VisitNext(1, second, true, 0), false)
      && 1 in w.crawls && w.crawls[1] == [("m", norm("u"))]
      && RowsKeyed(t) && "m" in t.mentions && t.mentions["m"].captureState == Captured
      && t.artifacts.Keys == Ids(FIRST_FETCH) && t.snapshots.Keys == {FIRST_FETCH.snapshotId}
      && IsEvidence(t, Who("m"), FIRST_FETCH.artifactIds, FIRST_FETCH.snapshotId)
  {
    hide Next, CaptureRows, RequestRows, IsBatch, Fresh, Ids, IsEvidence;
    BothStart(sha, norm, second);
    var all := Overlap(norm, second);
    assert all[..4][..3] == all[..3] && all[..5][..4] == all[..4] && all[..5] == all;
    var w := RunCrawls(sha, norm, all[..3], false);
    EmptyRows(w.r.db.tables, Who("m"));
    FetchAdds(sha, norm, w, 0, "m", norm("u"), FIRST_FETCH);
  }

  /** A second fetch that commits leaves one mention with six artifacts and two archive requests. */
  lemma OverlapCapturesTwice(sha: Digest, norm: UrlNorm)
    ensures var t := RunCrawls(sha, norm, Overlap(norm, Fetched(SECOND_FETCH)), false).r.db.tables;
      && "m" in t.mentions && t.mentions["m"].captureState == Captured
      && CaptureRows(t, Who("m")) == Ids(FIRST_FETCH) + Ids(SECOND_FETCH)
      && RequestRows(t, Who("m")) == {FIRST_FETCH.snapshotId, SECOND_FETCH.snapshotId}
  {
    hide Next, RunCrawls, CaptureRows, RequestRows, FIRST_FETCH, SECOND_FETCH;
    var all := Overlap(norm, Fetched(SECOND_FETCH));
    var w := RunCrawls(sha, norm, all[..4], false);
    FirstFetches(sha, norm, Fetched(SECOND_FETCH));
    SecondFresh(w.r.db.tables);
    FetchAdds(sha, norm, w, 1, "m", norm("u"), SECOND_FETCH);
    EvidenceIds(w.r.db.tables, Who("m"), FIRST_FETCH);
  }

  lemma SkipKeeps(sha: Digest, norm: UrlNorm, w: World, pid: nat, id: string, url: string)
    requires pid in w.crawls && w.crawls[pid] == [(id, url)]
    requires RowsKeyed(w.r.db.tables) && id in w.r.db.tables.mentions && FullEvidence(w.r.db.tables, Who(id))
    ensures var u := Next(sha, norm, w, VisitNext(pid, Skip, true, 0), false).r.db.tables;
      id in u.mentions && u.mentions[id].captureState == Skipped && FullEvidence(u, Who(id))
  {
    hide CaptureRows, RequestRows, FullEvidence;
    UnstoredRow(sha, w.r, id, url, Skip);
    var u := Next(sha, norm, w, VisitNext(pid, Skip, true, 0), false).r.db.tables;
    RowsOf(w.r.db.tables, u, Who(id));
    RowsKeepFull(w.r.db.tables, u, Who(id));
  }

  /** A second crawl that skips what the first has captured leaves it skipped, with all its evidence. */
  lemma OverlapSkipsCaptured(sha: Digest, norm: UrlNorm)
    ensures var t := RunCrawls(sha, norm, Overlap(norm, Skip), false).r.db.tables;
      && "m" in t.mentions && t.mentions["m"].captureState == Skipped && FullEvidence(t, Who("m"))
  {
    hide Next, RunCrawls, CaptureRows, RequestRows, IsEvidence, FIRST_FETCH;
    var w := RunCrawls(sha, norm, Overlap(norm, Skip)[..4], false);
    FirstFetches(sha, norm, Skip);
    assert FullEvidence(w.r.db.tables, Who("m"));
    SkipKeeps(sha, norm, w, 1, "m", norm("u"));
  }
}
