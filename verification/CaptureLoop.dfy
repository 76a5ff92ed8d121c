/**
 The capture loop of a crawl: which mentions a run takes up, and what one visit of a
 mention leaves. Nothing is read again after the network call.
 */
module CaptureLoop {
  import opened Wrappers
  import opened Database
  import opened Sessions
  import opened Store
  import opened CapturePipeline
  import opened EvidenceRows

  const MAX_CAPTURE_ATTEMPTS := 3

  /** Move a mention's capture state and log the decision. */
  function RecordCaptureState(db: Db, id: string, state: CaptureState): Db {
    if id !in db.tables.mentions then db
    else
      var m := db.tables.mentions[id];
      Log(db, PutMention(db.tables, m.(captureState := state)), CaptureStateChanged(id, state, m.captureAttempts))
  }

  /** One attempt more, which no event carries. */
  function CountAttempt(db: Db, id: string): Db {
    if id !in db.tables.mentions then db
    else
      var m := db.tables.mentions[id];
      db.(tables := PutMention(db.tables, m.(captureAttempts := m.captureAttempts + 1)))
  }

  predicate OutOfAttempts(db: Db, id: string) {
    id in db.tables.mentions && db.tables.mentions[id].captureAttempts >= MAX_CAPTURE_ATTEMPTS
  }

  /** A capture that threw: counted, and the last one is final. */
  function FailCapture(db: Db, id: string): Db {
    var counted := CountAttempt(db, id);
    if OutOfAttempts(counted, id) then RecordCaptureState(counted, id, Failed) else counted
  }

  datatype Verdict = Allow | Deny | Unavailable

  /** What a visit comes to. */
  datatype Visit = Skip | Wait | Threw | Fetched(evidence: Evidence)

  function Decide(skippedHost: bool, verdict: Verdict, result: Option<Evidence>): Visit {
    if skippedHost || verdict == Deny then Skip
    else if verdict == Unavailable then Wait
    else
      match result
      case None => Threw
      case Some(e) => Fetched(e)
  }

  /** One visit; None when its transaction is refused, which ends the crawl. */
  function Settle(sha: Digest, r: Record, id: string, url: string, v: Visit): Option<Record> {
    match v
    case Wait => Some(r)
    case Skip => Some(r.(db := RecordCaptureState(r.db, id, Skipped)))
    case Threw => Some(r.(db := FailCapture(r.db, id)))
    case Fetched(e) =>
      match StoreEvidence(sha, r, Subject("mention", id), url, e)
      case None => None
      case Some(s) => Some(s.(db := RecordCaptureState(s.db, id, Captured)))
  }

  function SettleAll(sha: Digest, r: Record, pending: seq<(string, string)>, visits: seq<Visit>): Option<Record>
    requires |visits| == |pending|
  {
    if pending == [] then Some(r)
    else
      var n := |pending| - 1;
      match SettleAll(sha, r, pending[..n], visits[..n])
      case None => None
      case Some(s) => Settle(sha, s, pending[n].0, pending[n].1, visits[n])
  }

  lemma {:induction false} SettleStuck(sha: Digest, r: Record, pending: seq<(string, string)>, visits: seq<Visit>,
                                       n: nat)
    requires n <= |visits| == |pending| && SettleAll(sha, r, pending[..n], visits[..n]).None?
    ensures SettleAll(sha, r, pending, visits).None?
    decreases |pending| - n
  {
    if n < |pending| {
      assert pending[..n + 1][..n] == pending[..n] && visits[..n + 1][..n] == visits[..n];
      SettleStuck(sha, r, pending, visits, n + 1);
    } else {
      assert pending[..n] == pending && visits[..n] == visits;
    }
  }

  function VisitsOf(skipHosts: set<string>, hostOf: string -> string, pending: seq<(string, string)>,
                    verdicts: seq<Verdict>, results: seq<Option<Evidence>>): (visits: seq<Visit>)
    requires |verdicts| == |results| == |pending|
    ensures |visits| == |pending|
  {
    seq(|pending|, i requires 0 <= i < |pending| => Decide(hostOf(pending[i].1) in skipHosts, verdicts[i], results[i]))
  }

  /** How many visits were captured, and how many were left to a host that owes an answer. */
  function Tally(visits: seq<Visit>): (nat, nat) {
    if visits == [] then (0, 0)
    else
      var (captured, waiting) := Tally(visits[..|visits| - 1]);
      match visits[|visits| - 1]
      case Fetched(_) => (captured + 1, waiting)
      case Wait => (captured, waiting + 1)
      case _ => (captured, waiting)
  }

  lemma SettleNone(sha: Digest, r: Record, pending: seq<(string, string)>, visits: seq<Visit>)
    requires |visits| == |pending|
    ensures SettleAll(sha, r, pending[..0], visits[..0]) == Some(r) && Tally(visits[..0]) == (0, 0)
  {
  }

  lemma SettleNext(sha: Digest, r: Record, pending: seq<(string, string)>, visits: seq<Visit>, n: nat)
    requires n < |visits| == |pending|
    ensures var before := SettleAll(sha, r, pending[..n], visits[..n]);
      SettleAll(sha, r, pending[..n + 1], visits[..n + 1]) ==
      if before.None? then None else Settle(sha, before.value, pending[n].0, pending[n].1, visits[n])
    ensures var (captured, waiting) := Tally(visits[..n]);
      Tally(visits[..n + 1]) ==
      (captured + if visits[n].Fetched? then 1 else 0, waiting + if visits[n].Wait? then 1 else 0)
  {
    assert pending[..n + 1][..n] == pending[..n] && visits[..n + 1][..n] == visits[..n];
  }

  // ----- What one visit leaves -----

  function Who(id: string): Subject {
    Subject("mention", id)
  }

  predicate SameRowsOf(t: Tables, u: Tables, k: string) {
    CaptureRows(u, Who(k)) == CaptureRows(t, Who(k)) && RequestRows(u, Who(k)) == RequestRows(t, Who(k))
  }

  /** Every mention but this one, and its evidence, is as it was; no artifact is lost. */
  ghost predicate OthersSame(t: Tables, u: Tables, id: string) {
    && KeepsArtifacts(t, u)
    && t.mentions.Keys == u.mentions.Keys
    && (forall k :: k in t.mentions && k != id ==> u.mentions[k] == t.mentions[k])
    && forall k :: k != id ==> SameRowsOf(t, u, k)
  }

  lemma RowsOf(t: Tables, u: Tables, who: Subject)
    requires u.artifacts == t.artifacts && u.snapshots == t.snapshots
    ensures CaptureRows(u, who) == CaptureRows(t, who) && RequestRows(u, who) == RequestRows(t, who)
    ensures ArtifactRows(u, who) == ArtifactRows(t, who) && KeepsArtifacts(t, u)
  {
  }

  /** A visit that stores nothing moves one mention's row. */
  lemma StateOthers(t: Tables, u: Tables, id: string)
    requires u == t.(mentions := u.mentions) && t.mentions.Keys == u.mentions.Keys
    requires forall k :: k in t.mentions && k != id ==> u.mentions[k] == t.mentions[k]
    ensures OthersSame(t, u, id) && SameRowsOf(t, u, id)
  {
    hide CaptureRows, RequestRows;
    forall k ensures SameRowsOf(t, u, k) {
      RowsOf(t, u, Who(k));
    }
    RowsOf(t, u, Who(id));
  }

  lemma KeepsOn(t: Tables, s: Tables, u: Tables)
    requires KeepsArtifacts(t, s) && u.artifacts == s.artifacts
    ensures KeepsArtifacts(t, u)
  {
  }

  lemma StoredOthers(sha: Digest, r: Record, id: string, url: string, e: Evidence)
    requires RowsKeyed(r.db.tables) && id in r.db.tables.mentions && Settle(sha, r, id, url, Fetched(e)).Some?
    ensures var t, u := r.db.tables, Settle(sha, r, id, url, Fetched(e)).value.db.tables;
      && RowsKeyed(u) && OthersSame(t, u, id) && id in u.mentions
      && u.mentions[id] == t.mentions[id].(captureState := Captured)
      && CaptureRows(u, Who(id)) == CaptureRows(t, Who(id)) + Ids(e)
      && RequestRows(u, Who(id)) == RequestRows(t, Who(id)) + {e.snapshotId}
      && (Bare(t, Who(id)) ==> IsEvidence(u, Who(id), e.artifactIds, e.snapshotId))
  {
    hide StoreEvidence, CaptureRows, RequestRows, ArtifactRows, KeepsArtifacts;
    var s := StoreEvidence(sha, r, Who(id), url, e).value;
    var t, u := r.db.tables, Settle(sha, r, id, url, Fetched(e)).value.db.tables;
    StoreEvidenceKeyed(sha, r, Who(id), url, e);
    StoreEvidenceExact(sha, r, Who(id), url, e, Who(id));
    RowsOf(s.db.tables, u, Who(id));
    forall k | k != id ensures SameRowsOf(t, u, k) {
      StoreEvidenceExact(sha, r, Who(id), url, e, Who(k));
      RowsOf(s.db.tables, u, Who(k));
    }
    KeepsOn(t, s.db.tables, u);
  }

  /** The mention after a visit that stores nothing. */
  lemma UnstoredRow(sha: Digest, r: Record, id: string, url: string, v: Visit)
    requires RowsKeyed(r.db.tables) && !v.Fetched? && (v.Wait? || id in r.db.tables.mentions)
    ensures var t, u := r.db.tables, Settle(sha, r, id, url, v).value.db.tables;
      && RowsKeyed(u) && u == t.(mentions := u.mentions) && t.mentions.Keys == u.mentions.Keys
      && (forall k :: k in t.mentions && k != id ==> u.mentions[k] == t.mentions[k])
      && (v.Wait? ==> u == t)
      && (v.Skip? ==> u.mentions[id] == t.mentions[id].(captureState := Skipped))
      && (v.Threw? ==>
            var tried := t.mentions[id].(captureAttempts := t.mentions[id].captureAttempts + 1);
            u.mentions[id]
            == if tried.captureAttempts >= MAX_CAPTURE_ATTEMPTS then tried.(captureState := Failed) else tried)
  {
  }

  // ----- What the loop owes each mention -----

  /** Rows that are there stay as they are. */
  ghost predicate KeepsRows(t: Tables, u: Tables) {
    KeepsArtifacts(t, u) && forall id <- t.snapshots :: id in u.snapshots && u.snapshots[id] == t.snapshots[id]
  }

  ghost predicate Untouched(t: Tables, u: Tables, id: string) {
    && (id in t.mentions <==> id in u.mentions)
    && (id in t.mentions ==> u.mentions[id] == t.mentions[id])
    && SameRowsOf(t, u, id)
  }

  /** The state, the attempts and the other columns that a pending mention is left with. */
  predicate LeftWith(m: Mention, n: Mention, skippedHost: bool, verdict: Verdict, captured: bool) {
    var tried := !skippedHost && verdict == Allow;
    && n == m.(captureState := n.captureState, captureAttempts := n.captureAttempts)
    && (n.captureState == Skipped <==> skippedHost || verdict == Deny)
    && (n.captureState == Captured <==> tried && captured)
    && (n.captureState == Failed <==> tried && !captured && m.captureAttempts + 1 >= MAX_CAPTURE_ATTEMPTS)
    && (n == m <==> !skippedHost && verdict == Unavailable)
    && n.captureAttempts == m.captureAttempts + if tried && !captured then 1 else 0
  }

  /** A mention of the batch by its host, its robots verdict and its capture alone. */
  ghost predicate Treated(sha: Digest, t: Tables, u: Tables, id: string, url: string, skippedHost: bool,
                          verdict: Verdict, result: Option<Evidence>) {
    && id in t.mentions && id in u.mentions
    && (t.mentions[id].captureState == Pending ==>
          LeftWith(t.mentions[id], u.mentions[id], skippedHost, verdict, result.Some?))
    && (if !skippedHost && verdict == Allow && result.Some? then
          && Carries(sha, u, Who(id), url, result.value)
          && CaptureRows(u, Who(id)) == CaptureRows(t, Who(id)) + Ids(result.value)
          && RequestRows(u, Who(id)) == RequestRows(t, Who(id)) + {result.value.snapshotId}
        else SameRowsOf(t, u, id))
  }

  lemma CarriesOn(sha: Digest, t: Tables, u: Tables, who: Subject, url: string, e: Evidence)
    requires Carries(sha, t, who, url, e) && KeepsRows(t, u)
    ensures Carries(sha, u, who, url, e)
  {
  }

  lemma TreatedOn(sha: Digest, t: Tables, u: Tables, v: Tables, id: string, url: string, skippedHost: bool,
                  verdict: Verdict, result: Option<Evidence>)
    requires Treated(sha, t, u, id, url, skippedHost, verdict, result) && Untouched(u, v, id) && KeepsRows(u, v)
    ensures Treated(sha, t, v, id, url, skippedHost, verdict, result)
  {
    hide Carries, KeepsRows, CaptureRows, RequestRows, LeftWith;
    if !skippedHost && verdict == Allow && result.Some? {
      CarriesOn(sha, u, v, Who(id), url, result.value);
    }
  }

  lemma TreatedFrom(sha: Digest, s: Tables, t: Tables, u: Tables, id: string, url: string, skippedHost: bool,
                    verdict: Verdict, result: Option<Evidence>)
    requires Untouched(s, t, id) && Treated(sha, t, u, id, url, skippedHost, verdict, result)
    ensures Treated(sha, s, u, id, url, skippedHost, verdict, result)
  {
    hide Carries, CaptureRows, RequestRows, LeftWith;
  }

  lemma StoredRows(sha: Digest, r: Record, who: Subject, url: string, e: Evidence)
    requires StoreEvidence(sha, r, who, url, e).Some?
    ensures KeepsRows(r.db.tables, StoreEvidence(sha, r, who, url, e).value.db.tables)
  {
    hide StoreEvidence;
    var a, b, c, x := StoreEvidenceIs(sha, r, who, url, e);
  }

  lemma StateRows(db: Db, id: string, state: CaptureState)
    ensures var u := RecordCaptureState(db, id, state).tables;
      u.artifacts == db.tables.artifacts && u.snapshots == db.tables.snapshots
  {
  }

  lemma StoredKeeps(sha: Digest, r: Record, id: string, url: string, e: Evidence)
    requires Settle(sha, r, id, url, Fetched(e)).Some?
    ensures var t, u := r.db.tables, Settle(sha, r, id, url, Fetched(e)).value.db.tables;
      KeepsRows(t, u) && Carries(sha, u, Who(id), url, e)
  {
    hide StoreEvidence, Carries, RecordCaptureState;
    var s := StoreEvidence(sha, r, Who(id), url, e).value.db;
    StoreEvidenceRows(sha, r, Who(id), url, e);
    StoredRows(sha, r, Who(id), url, e);
    StateRows(s, id, Captured);
    CarriesOn(sha, s.tables, RecordCaptureState(s, id, Captured).tables, Who(id), url, e);
  }

  lemma KeptByState(t: Tables, u: Tables)
    requires u == t.(mentions := u.mentions)
    ensures KeepsRows(t, u)
  {
  }

  /** One pass of the loop, for the mention it visits and for every other. */
  lemma VisitTreats(sha: Digest, r: Record, id: string, url: string, skippedHost: bool, verdict: Verdict,
                    result: Option<Evidence>)
    requires RowsKeyed(r.db.tables) && id in r.db.tables.mentions
    requires Settle(sha, r, id, url, Decide(skippedHost, verdict, result)).Some?
    ensures var t, u := r.db.tables, Settle(sha, r, id, url, Decide(skippedHost, verdict, result)).value.db.tables;
      && RowsKeyed(u) && u.mentions.Keys == t.mentions.Keys && KeepsRows(t, u)
      && Treated(sha, t, u, id, url, skippedHost, verdict, result)
      && forall k :: k != id ==> Untouched(t, u, k)
  {
    hide Settle, Carries, CaptureRows, RequestRows, KeepsRows;
    var v := Decide(skippedHost, verdict, result);
    var t, u := r.db.tables, Settle(sha, r, id, url, v).value.db.tables;
    if v.Fetched? {
      StoredOthers(sha, r, id, url, v.evidence);
      StoredKeeps(sha, r, id, url, v.evidence);
    } else {
      UnstoredRow(sha, r, id, url, v);
      StateOthers(t, u, id);
      KeptByState(t, u);
    }
  }

  // ----- What it owes the batch -----

  /** Mentions that exist, each once, as the query returns them. */
  predicate Listed(t: Tables, pending: seq<(string, string)>) {
    && (forall i :: 0 <= i < |pending| ==> pending[i].0 in t.mentions)
    && forall i, j :: 0 <= i < j < |pending| ==> pending[i].0 != pending[j].0
  }

  predicate IsAmong(pending: seq<(string, string)>, n: nat, id: string)
    requires n <= |pending|
  {
    exists i :: 0 <= i < n && pending[i].0 == id
  }

  /** The first n mentions are treated as they must be, and no other is touched. */
  ghost predicate BatchTreated(sha: Digest, t: Tables, u: Tables, skipHosts: set<string>, hostOf: string -> string,
                               pending: seq<(string, string)>, verdicts: seq<Verdict>,
                               results: seq<Option<Evidence>>, n: nat)
    requires n <= |pending| == |verdicts| == |results|
  {
    && (forall i :: 0 <= i < n ==>
          Treated(sha, t, u, pending[i].0, pending[i].1, hostOf(pending[i].1) in skipHosts, verdicts[i], results[i]))
    && forall id :: !IsAmong(pending, n, id) ==> Untouched(t, u, id)
  }

  lemma NothingTreated(sha: Digest, t: Tables, skipHosts: set<string>, hostOf: string -> string,
                       pending: seq<(string, string)>, verdicts: seq<Verdict>, results: seq<Option<Evidence>>)
    requires |pending| == |verdicts| == |results|
    ensures BatchTreated(sha, t, t, skipHosts, hostOf, pending, verdicts, results, 0)
  {
  }

  lemma AmongNext(pending: seq<(string, string)>, n: nat, id: string)
    requires n < |pending|
    ensures IsAmong(pending, n + 1, id) <==> IsAmong(pending, n, id) || pending[n].0 == id
  {
    if pending[n].0 == id {
      assert 0 <= n < n + 1;
    }
  }

  lemma UntouchedOn(t: Tables, u: Tables, v: Tables, id: string)
    requires Untouched(t, u, id) && Untouched(u, v, id)
    ensures Untouched(t, v, id)
  {
    hide CaptureRows, RequestRows;
  }

  lemma TreatedNext(sha: Digest, t: Tables, u: Tables, v: Tables, skipHosts: set<string>, hostOf: string -> string,
                    pending: seq<(string, string)>, verdicts: seq<Verdict>, results: seq<Option<Evidence>>, n: nat)
    requires n < |pending| == |verdicts| == |results| && Listed(t, pending)
    requires BatchTreated(sha, t, u, skipHosts, hostOf, pending, verdicts, results, n) && KeepsRows(u, v)
    requires Treated(sha, u, v, pending[n].0, pending[n].1, hostOf(pending[n].1) in skipHosts, verdicts[n], results[n])
    requires forall k :: k != pending[n].0 ==> Untouched(u, v, k)
    ensures BatchTreated(sha, t, v, skipHosts, hostOf, pending, verdicts, results, n + 1)
  {
    hide Treated, KeepsRows, Untouched;
    forall i | 0 <= i < n + 1
      ensures Treated(sha, t, v, pending[i].0, pending[i].1, hostOf(pending[i].1) in skipHosts, verdicts[i], results[i])
    {
      var (id, url) := pending[i];
      if i < n {
        assert id != pending[n].0;
        TreatedOn(sha, t, u, v, id, url, hostOf(url) in skipHosts, verdicts[i], results[i]);
      } else {
        assert !IsAmong(pending, n, id);
        TreatedFrom(sha, t, u, v, id, url, hostOf(url) in skipHosts, verdicts[i], results[i]);
      }
    }
    forall id | !IsAmong(pending, n + 1, id) ensures Untouched(t, v, id) {
      AmongNext(pending, n, id);
      UntouchedOn(t, u, v, id);
    }
  }

  /** The loop's first n passes treat the first n mentions as they must be, and touch no other. */
  lemma {:induction false} LoopTreats(sha: Digest, r: Record, skipHosts: set<string>, hostOf: string -> string,
                                      pending: seq<(string, string)>, verdicts: seq<Verdict>,
                                      results: seq<Option<Evidence>>, n: nat)
    requires n <= |pending| == |verdicts| == |results| && RowsKeyed(r.db.tables) && Listed(r.db.tables, pending)
    requires SettleAll(sha, r, pending[..n], VisitsOf(skipHosts, hostOf, pending, verdicts, results)[..n]).Some?
    ensures var visits := VisitsOf(skipHosts, hostOf, pending, verdicts, results);
      var u := SettleAll(sha, r, pending[..n], visits[..n]).value.db.tables;
      && RowsKeyed(u) && u.mentions.Keys == r.db.tables.mentions.Keys
      && BatchTreated(sha, r.db.tables, u, skipHosts, hostOf, pending, verdicts, results, n)
  {
    hide Settle, Decide, BatchTreated, Treated, KeepsRows, Untouched, Tally;
    if n == 0 {
      NothingTreated(sha, r.db.tables, skipHosts, hostOf, pending, verdicts, results);
    } else {
      var visits := VisitsOf(skipHosts, hostOf, pending, verdicts, results);
      var m := n - 1;
      SettleNext(sha, r, pending, visits, m);
      LoopTreats(sha, r, skipHosts, hostOf, pending, verdicts, results, m);
      var s := SettleAll(sha, r, pending[..m], visits[..m]).value;
      var (id, url) := pending[m];
      VisitTreats(sha, s, id, url, hostOf(url) in skipHosts, verdicts[m], results[m]);
      var u := SettleAll(sha, r, pending[..n], visits[..n]).value.db.tables;
      TreatedNext(sha, r.db.tables, s.db.tables, u, skipHosts, hostOf, pending, verdicts, results, m);
    }
  }

  /** The visits that fetch, by their place. */
  function FetchedAt(skipHosts: set<string>, hostOf: string -> string, pending: seq<(string, string)>,
                     verdicts: seq<Verdict>, results: seq<Option<Evidence>>, n: nat): set<int>
    requires n <= |pending| == |verdicts| == |results|
  {
    set i | 0 <= i < n && hostOf(pending[i].1) !in skipHosts && verdicts[i] == Allow && results[i].Some?
  }

  /** The visits that wait for robots.txt. */
  function OwedAt(skipHosts: set<string>, hostOf: string -> string, pending: seq<(string, string)>,
                  verdicts: seq<Verdict>, n: nat): set<int>
    requires n <= |pending| == |verdicts|
  {
    set i | 0 <= i < n && hostOf(pending[i].1) !in skipHosts && verdicts[i] == Unavailable
  }

  lemma FetchedNext(skipHosts: set<string>, hostOf: string -> string, pending: seq<(string, string)>,
                    verdicts: seq<Verdict>, results: seq<Option<Evidence>>, n: nat)
    requires n < |pending| == |verdicts| == |results|
    ensures |FetchedAt(skipHosts, hostOf, pending, verdicts, results, n + 1)|
            == |FetchedAt(skipHosts, hostOf, pending, verdicts, results, n)|
               + if Decide(hostOf(pending[n].1) in skipHosts, verdicts[n], results[n]).Fetched? then 1 else 0
  {
    var before := FetchedAt(skipHosts, hostOf, pending, verdicts, results, n);
    var fetched := Decide(hostOf(pending[n].1) in skipHosts, verdicts[n], results[n]).Fetched?;
    assert FetchedAt(skipHosts, hostOf, pending, verdicts, results, n + 1) == before + if fetched then {n} else {};
  }

  lemma OwedNext(skipHosts: set<string>, hostOf: string -> string, pending: seq<(string, string)>,
                 verdicts: seq<Verdict>, results: seq<Option<Evidence>>, n: nat)
    requires n < |pending| == |verdicts| == |results|
    ensures |OwedAt(skipHosts, hostOf, pending, verdicts, n + 1)|
            == |OwedAt(skipHosts, hostOf, pending, verdicts, n)|
               + if Decide(hostOf(pending[n].1) in skipHosts, verdicts[n], results[n]).Wait? then 1 else 0
  {
    var before := OwedAt(skipHosts, hostOf, pending, verdicts, n);
    var waits := Decide(hostOf(pending[n].1) in skipHosts, verdicts[n], results[n]).Wait?;
    assert OwedAt(skipHosts, hostOf, pending, verdicts, n + 1) == before + if waits then {n} else {};
  }

  lemma {:induction false} TallyExact(skipHosts: set<string>, hostOf: string -> string, pending: seq<(string, string)>,
                                      verdicts: seq<Verdict>, results: seq<Option<Evidence>>, n: nat)
    requires n <= |pending| == |verdicts| == |results|
    ensures Tally(VisitsOf(skipHosts, hostOf, pending, verdicts, results)[..n])
            == (|FetchedAt(skipHosts, hostOf, pending, verdicts, results, n)|,
                |OwedAt(skipHosts, hostOf, pending, verdicts, n)|)
  {
    if n == 0 {
      assert FetchedAt(skipHosts, hostOf, pending, verdicts, results, 0) == {};
      assert OwedAt(skipHosts, hostOf, pending, verdicts, 0) == {};
    } else {
      hide FetchedAt, OwedAt, Decide;
      TallyExact(skipHosts, hostOf, pending, verdicts, results, n - 1);
      FetchedNext(skipHosts, hostOf, pending, verdicts, results, n - 1);
      OwedNext(skipHosts, hostOf, pending, verdicts, results, n - 1);
      var visits := VisitsOf(skipHosts, hostOf, pending, verdicts, results);
      assert visits[..n][..n - 1] == visits[..n - 1];
    }
  }

  /** A capture that the indexes refuse: what ends the crawl. */
  predicate Refuses(t: Tables, skippedHost: bool, verdict: Verdict, result: Option<Evidence>) {
    !skippedHost && verdict == Allow && result.Some? && !Fresh(t, result.value)
  }

  lemma RefusedExact(sha: Digest, r: Record, id: string, url: string, skippedHost: bool, verdict: Verdict,
                     result: Option<Evidence>)
    ensures Settle(sha, r, id, url, Decide(skippedHost, verdict, result)).None?
            <==> Refuses(r.db.tables, skippedHost, verdict, result)
  {
    hide StoreEvidence, Fresh;
    if result.Some? {
      StoreEvidenceFresh(sha, r, Who(id), url, result.value);
    }
  }

  method SetCaptureState(session: Session, id: string, state: CaptureState)
    modifies session`db
    ensures session.db == RecordCaptureState(old(session.db), id, state)
  {
    if id in session.db.tables.mentions {
      var m := session.db.tables.mentions[id].(captureState := state);
      session.Update(PutMention(session.db.tables, m), CaptureStateChanged(id, state, m.captureAttempts));
    }
  }

  method CountFailure(session: Session, id: string)
    modifies session`db
    ensures session.db == FailCapture(old(session.db), id)
  {
    if id in session.db.tables.mentions {
      var m := session.db.tables.mentions[id];
      session.db := session.db.(tables := PutMention(session.db.tables, m.(captureAttempts := m.captureAttempts + 1)));
      if OutOfAttempts(session.db, id) {
        SetCaptureState(session, id, Failed);
      }
    }
  }

  method StoreCapture(store: ArtifactStore, session: Session, id: string, url: string, e: Evidence) returns (ok: bool)
    requires Intact(store.sha, store.files)
    modifies store, session`db
    ensures Intact(store.sha, store.files) && Keeps(old(store.files), store.files)
    ensures var r := Settle(store.sha, Record(old(session.db), old(store.files)), id, url, Fetched(e));
      && (ok <==> r.Some?)
      && (ok ==> Record(session.db, store.files) == r.value)
  {
    var who := Subject("mention", id);
    ok := StoreArtifacts(store, session, who, e.capture, e.artifactIds);
    if ok {
      ok := SubmitArchive(session, e.snapshotId, who, e.provider, url, e.at, e.confirmedAt, e.answer);
    }
    if ok {
      SetCaptureState(session, id, Captured);
    }
  }

  /** One visit, its changes in a transaction of its own. */
  method VisitMention(store: ArtifactStore, session: Session, id: string, url: string, visit: Visit) returns (ok: bool)
    requires Intact(store.sha, store.files) && session.committed == session.db
    modifies store, session
    ensures Intact(store.sha, store.files) && Keeps(old(store.files), store.files)
    ensures var r := Settle(store.sha, Record(old(session.db), old(store.files)), id, url, visit);
      && (ok <==> r.Some?) && session.committed == session.db
      && (if ok then Record(session.db, store.files) == r.value else session.db == old(session.db))
  {
    ok := true;
    match visit {
      case Wait =>
      case Skip => SetCaptureState(session, id, Skipped);
      case Threw => CountFailure(session, id);
      case Fetched(e) => ok := StoreCapture(store, session, id, url, e);
    }
    session.Close(ok);
  }

  /** The loop over one batch. It stops at the first visit whose transaction is refused. */
  method CapturePending(store: ArtifactStore, session: Session, skipHosts: set<string>, hostOf: string -> string,
                        pending: seq<(string, string)>, verdicts: seq<Verdict>, results: seq<Option<Evidence>>)
    returns (done: nat, captured: nat, unavailable: nat)
    requires Intact(store.sha, store.files) && session.committed == session.db
    requires |verdicts| == |results| == |pending|
    modifies store, session
    ensures session.committed == session.db && done <= |pending|
    ensures Intact(store.sha, store.files) && Keeps(old(store.files), store.files)
    ensures var visits := VisitsOf(skipHosts, hostOf, pending, verdicts, results);
      var start := Record(old(session.db), old(store.files));
      var r := SettleAll(store.sha, start, pending[..done], visits[..done]);
      && r.Some? && session.db == r.value.db
      && (done == |pending| ==> store.files == r.value.files)
      && (captured, unavailable) == Tally(visits[..done])
      && (done < |pending| ==> SettleAll(store.sha, start, pending[..done + 1], visits[..done + 1]).None?)
    ensures RowsKeyed(old(session.db).tables) && Listed(old(session.db).tables, pending) ==>
              BatchTreated(store.sha, old(session.db).tables, session.db.tables, skipHosts, hostOf, pending, verdicts,
                           results, done)
    ensures done < |pending| ==>
              Refuses(session.db.tables, hostOf(pending[done].1) in skipHosts, verdicts[done], results[done])
    ensures captured == |FetchedAt(skipHosts, hostOf, pending, verdicts, results, done)|
    ensures unavailable == |OwedAt(skipHosts, hostOf, pending, verdicts, done)|
  {
    hide Settle, SettleAll, Tally, BatchTreated, FetchedAt, OwedAt, Decide, Refuses;
    ghost var visits := VisitsOf(skipHosts, hostOf, pending, verdicts, results);
    ghost var start := Record(session.db, store.files);
    done, captured, unavailable := 0, 0, 0;
    SettleNone(store.sha, start, pending, visits);
    while done < |pending|
      invariant done <= |pending| && session.committed == session.db
      invariant Intact(store.sha, store.files) && Keeps(old(store.files), store.files)
      invariant SettleAll(store.sha, start, pending[..done], visits[..done]) == Some(Record(session.db, store.files))
      invariant (captured, unavailable) == Tally(visits[..done])
    {
      SettleNext(store.sha, start, pending, visits, done);
      var (id, url) := pending[done];
      var visit := Decide(hostOf(url) in skipHosts, verdicts[done], results[done]);
      ghost var before := Record(session.db, store.files);
      var ok := VisitMention(store, session, id, url, visit);
      if !ok {
        RefusedExact(store.sha, before, id, url, hostOf(url) in skipHosts, verdicts[done], results[done]);
        break;
      }
      captured := captured + if visit.Fetched? then 1 else 0;
      unavailable := unavailable + if visit.Wait? then 1 else 0;
      done := done + 1;
    }
    TallyExact(skipHosts, hostOf, pending, verdicts, results, done);
    if RowsKeyed(start.db.tables) && Listed(start.db.tables, pending) {
      LoopTreats(store.sha, start, skipHosts, hostOf, pending, verdicts, results, done);
    }
  }

  // ----- Which mentions a run takes up -----

  predicate IsPending(db: Db, id: string) {
    id in db.tables.mentions && db.tables.mentions[id].captureState == Pending
  }

  function PendingIds(db: Db): set<string> {
    set id | id in db.tables.mentions && db.tables.mentions[id].captureState == Pending
  }

  /** The oldest pending mentions, at most `budget` of them, in order of discovery. */
  predicate IsBatch(db: Db, budget: nat, batch: seq<(string, string)>) {
    && |batch| == (if budget < |PendingIds(db)| then budget else |PendingIds(db)|)
    && (forall i :: 0 <= i < |batch| ==> IsPending(db, batch[i].0) && db.tables.mentions[batch[i].0].url == batch[i].1)
    && (forall i, j :: 0 <= i < j < |batch| ==>
          && batch[i].0 != batch[j].0
          && db.tables.mentions[batch[i].0].discoveredAt <= db.tables.mentions[batch[j].0].discoveredAt)
    && forall id <- PendingIds(db), i | 0 <= i < |batch| ::
         (exists j :: 0 <= j < |batch| && batch[j].0 == id)
         || db.tables.mentions[batch[i].0].discoveredAt <= db.tables.mentions[id].discoveredAt
  }

  // ----- Replay -----

  lemma RecordCaptureStateFaithful(db: Db, id: string, state: CaptureState)
    requires Faithful(db)
    ensures Faithful(RecordCaptureState(db, id, state))
  {
    if id in db.tables.mentions {
      LogMention(db, db.tables.mentions[id].(captureState := state), RecordCaptureState(db, id, state).log[|db.log|]);
    }
  }

  lemma CountAttemptFaithful(db: Db, id: string)
    requires Faithful(db)
    ensures Faithful(CountAttempt(db, id))
  {
    if id in db.tables.mentions {
      var m := db.tables.mentions[id];
      UnloggedMention(db, m.(captureAttempts := m.captureAttempts + 1));
    }
  }

  lemma FailCaptureFaithful(db: Db, id: string)
    requires Faithful(db)
    ensures Faithful(FailCapture(db, id))
  {
    CountAttemptFaithful(db, id);
    RecordCaptureStateFaithful(CountAttempt(db, id), id, Failed);
  }

  lemma SettleFaithful(sha: Digest, r: Record, id: string, url: string, v: Visit)
    requires Faithful(r.db)
    ensures var s := Settle(sha, r, id, url, v); s.Some? ==> Faithful(s.value.db)
  {
    match v
    case Wait =>
    case Skip => RecordCaptureStateFaithful(r.db, id, Skipped);
    case Threw => FailCaptureFaithful(r.db, id);
    case Fetched(e) =>
      StoreEvidenceFaithful(sha, r, Subject("mention", id), url, e);
      var s := StoreEvidence(sha, r, Subject("mention", id), url, e);
      if s.Some? {
        RecordCaptureStateFaithful(s.value.db, id, Captured);
      }
  }
}
