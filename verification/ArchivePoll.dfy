/**
 Confirming pending archive snapshots: exponential backoff, at most six attempts,
 any number of polls overlapping on the network.
 */
module ArchivePoll {
  import opened Text
  import opened Wrappers
  import opened Clock
  import opened Database
  import opened Sessions
  import opened CapturePipeline

  // ----- Backoff -----

  const MINUTE := 60_000_000
  const BACKOFF := [1 * MINUTE, 5 * MINUTE, 30 * MINUTE, 120 * MINUTE, 720 * MINUTE]
  const MAX_ATTEMPTS := 6

  function SumTo(delays: seq<int>, n: nat): int
    requires n <= |delays|
  {
    if n == 0 then 0 else SumTo(delays, n - 1) + delays[n - 1]
  }

  /** Time owed after submission before attempt number attempts + 1. */
  function Delay(attempts: nat): int {
    SumTo(BACKOFF, if attempts < |BACKOFF| then attempts else |BACKOFF|)
  }

  function NextAttemptDue(submittedAt: int, attempts: nat): int {
    submittedAt + Delay(attempts)
  }

  /** The whole schedule: due at once, then after 1 m, 6 m, 36 m, 2 h 36 m and 14 h 36 m. */
  lemma Schedule()
    ensures Delay(0) == 0 && Delay(1) == 1 * MINUTE && Delay(2) == 6 * MINUTE && Delay(3) == 36 * MINUTE
    ensures Delay(4) == 156 * MINUTE && Delay(5) == 876 * MINUTE
    ensures forall k: nat :: k >= 5 ==> Delay(k) == 876 * MINUTE
  {
    assert SumTo(BACKOFF, 1) == 1 * MINUTE;
    assert SumTo(BACKOFF, 2) == 6 * MINUTE;
    assert SumTo(BACKOFF, 3) == 36 * MINUTE;
    assert SumTo(BACKOFF, 4) == 156 * MINUTE;
    assert SumTo(BACKOFF, 5) == 876 * MINUTE;
  }

  // ----- The work list -----

  const MARKER := "/save/"

  /** What follows the first marker, if there is one. */
  function AfterMarker(s: string): Option<string> {
    if |s| < |MARKER| then None
    else if s[..|MARKER|] == MARKER then Some(s[|MARKER|..])
    else AfterMarker(s[1..])
  }

  /** The URL to ask the archive about, taken from the URL its request was made at. */
  function TargetUrl(request: string): string {
    AfterMarker(request).GetOr(request)
  }

  /** A pending row as a poll carries it while no transaction is open. */
  datatype Due = Due(id: string, target: string, submittedAt: Time, attempts: nat, providerRef: Option<string>)

  function DueOf(s: Snapshot): Due {
    Due(s.id, TargetUrl(s.requestUrl), s.submittedAt, s.attempts, s.providerRef)
  }

  predicate IsDue(s: Snapshot, now: int) {
    NextAttemptDue(s.submittedAt, s.attempts) <= now
  }

  /** The due rows among those the query returned, in its order. */
  function DueAmong(pending: seq<Snapshot>, now: int): (due: seq<Due>)
    ensures |due| <= |pending|
  {
    if pending == [] then []
    else
      DueAmong(pending[..|pending| - 1], now) +
      if IsDue(pending[|pending| - 1], now) then [DueOf(pending[|pending| - 1])] else []
  }

  predicate DistinctItems(items: seq<Due>) {
    forall i, j :: 0 <= i < j < |items| ==> items[i].id != items[j].id
  }

  predicate DistinctRows(pending: seq<Snapshot>) {
    forall i, j :: 0 <= i < j < |pending| ==> pending[i].id != pending[j].id
  }

  lemma {:induction false} DueAmongExact(pending: seq<Snapshot>, now: int)
    requires DistinctRows(pending)
    ensures forall item :: item in DueAmong(pending, now)
              <==> exists s :: s in pending && IsDue(s, now) && item == DueOf(s)
    ensures DistinctItems(DueAmong(pending, now))
  {
    hide TargetUrl;
    if pending != [] {
      var n := |pending| - 1;
      DueAmongExact(pending[..n], now);
      assert pending == pending[..n] + [pending[n]];
      var before := DueAmong(pending[..n], now);
      forall i | 0 <= i < |before| ensures before[i].id != pending[n].id {
        assert before[i] in before;
        var s :| s in pending[..n] && before[i] == DueOf(s);
        var j :| 0 <= j < n && pending[..n][j] == s;
        assert pending[j] == s;
      }
    }
  }

  method DueSnapshots(pending: seq<Snapshot>, now: int) returns (due: seq<Due>, deferred: nat)
    ensures due == DueAmong(pending, now) && |due| + deferred == |pending|
    ensures DistinctRows(pending) ==>
              && DistinctItems(due)
              && forall item :: item in due <==> exists s :: s in pending && IsDue(s, now) && item == DueOf(s)
  {
    if DistinctRows(pending) {
      DueAmongExact(pending, now);
    }
    due, deferred := [], 0;
    for i := 0 to |pending|
      invariant due == DueAmong(pending[..i], now) && |due| + deferred == i
    {
      assert pending[..i + 1][..i] == pending[..i];
      var snap := pending[i];
      if NextAttemptDue(snap.submittedAt, snap.attempts) > now {
        deferred := deferred + 1;
      } else {
        due := due + [Due(snap.id, TargetUrl(snap.requestUrl), snap.submittedAt, snap.attempts, snap.providerRef)];
      }
    }
    assert pending[..|pending|] == pending;
  }

  const SAVE_ENDPOINT := "https://web.archive.org/save"

  lemma {:induction false} SkipPrefix(before: string, rest: string)
    requires |rest| >= |MARKER|
    requires forall i :: 0 <= i < |before| ==> before[i] != '/' || (before + rest)[i + 1] != 's'
    ensures AfterMarker(before + rest) == AfterMarker(rest)
  {
    if before == "" {
      assert before + rest == rest;
    } else {
      var s := before + rest;
      assert s[1..] == before[1..] + rest && s[0] == before[0];
      assert s[..|MARKER|][0] == s[0] && s[..|MARKER|][1] == s[1];
      SkipPrefix(before[1..], rest);
    }
  }

  lemma {:induction false} AfterMarkerExact(s: string)
    ensures AfterMarker(s).Some? <==> Contains(s, MARKER)
    ensures AfterMarker(s).Some? ==> |AfterMarker(s).value| < |s|
  {
    if |s| >= |MARKER| {
      AfterMarkerExact(s[1..]);
      assert s[1..][1..] == s[2..];
    }
  }

  /**
   A request the archive took is asked about under the URL it was made for, whatever
   that URL is. One that never reached the archive is held under the URL itself, and is
   asked about under that URL exactly when the marker does not occur in it.
   */
  lemma TargetExact(url: string)
    ensures TargetUrl(SAVE_ENDPOINT + "/" + url) == url
    ensures TargetUrl(url) == url <==> !Contains(url, MARKER)
  {
    assert SAVE_ENDPOINT + "/" + url == "https://web.archive.org" + (MARKER + url);
    SkipPrefix("https://web.archive.org", MARKER + url);
    assert (MARKER + url)[..|MARKER|] == MARKER && (MARKER + url)[|MARKER|..] == url;
    AfterMarkerExact(url);
  }

  // ----- One answer -----

  datatype Outcome = Resolved | Abandoned | StillPending | AlreadyAnswered

  /** The row after one more attempt with this answer. */
  function Attempted(s: Snapshot, ref: Option<string>, url: Option<string>, now: Time): Snapshot {
    var tried := s.(attempts := s.attempts + 1, providerRef := ref);
    if Truthy(url) then tried.(snapshotUrl := url, status := Confirmed, confirmedAt := Some(now))
    else if tried.attempts >= MAX_ATTEMPTS then tried.(status := GaveUp)
    else tried
  }

  /** The event that goes with it: the full row once it is final, the count until then. */
  function AttemptEvent(s: Snapshot): Event {
    match s.status
    case Confirmed => SnapshotLogged(SnapshotConfirmed, s)
    case GaveUp => SnapshotLogged(SnapshotFailed, s)
    case _ => SnapshotAttempted(s.id, s.attempts)
  }

  predicate Answerable(db: Db, id: string) {
    id in db.tables.snapshots && db.tables.snapshots[id].status == Awaiting
  }

  /** One transaction per answer, on the row as it is once the lock is held. */
  function RecordAttempt(db: Db, id: string, ref: Option<string>, url: Option<string>, now: Time): (Db, Outcome) {
    if !Answerable(db, id) then (db, AlreadyAnswered)
    else
      var s := Attempted(db.tables.snapshots[id], ref, url, now);
      (Log(db, PutSnapshot(db.tables, s), AttemptEvent(s)),
       match s.status case Confirmed => Resolved case GaveUp => Abandoned case _ => StillPending)
  }

  /** One attempt more on a waiting row, with its event: resolved by a URL, given up on the sixth try, or waiting on. */
  predicate Tried(before: Db, after: Db, id: string, ref: Option<string>, url: Option<string>, now: Time,
                     outcome: Outcome) {
    && id in before.tables.snapshots && id in after.tables.snapshots
    && var s, u := before.tables.snapshots[id], after.tables.snapshots[id];
    var confirmed := url.Some? && url.value != "";
    && after.tables == before.tables.(snapshots := before.tables.snapshots[id := u])
    && u == s.(attempts := s.attempts + 1, providerRef := ref, status := u.status,
               snapshotUrl := if confirmed then url else s.snapshotUrl,
               confirmedAt := if confirmed then Some(now) else s.confirmedAt)
    && (confirmed <==> u.status == Confirmed && outcome == Resolved
                       && after.log == before.log + [SnapshotLogged(SnapshotConfirmed, u)])
    && (!confirmed && u.attempts >= 6 <==> u.status == GaveUp && outcome == Abandoned
                                           && after.log == before.log + [SnapshotLogged(SnapshotFailed, u)])
    && (!confirmed && u.attempts < 6 <==> u.status == Awaiting && outcome == StillPending
                                          && after.log == before.log + [SnapshotAttempted(id, u.attempts)])
  }

  /** A row that is gone or answered is left alone; a waiting one gets its attempt. */
  lemma RecordExact(db: Db, id: string, ref: Option<string>, url: Option<string>, now: Time)
    requires RowsKeyed(db.tables)
    ensures var (d, outcome) := RecordAttempt(db, id, ref, url, now);
      if id in db.tables.snapshots && db.tables.snapshots[id].status == Awaiting
      then Tried(db, d, id, ref, url, now, outcome)
      else d == db && outcome == AlreadyAnswered
  {
  }

  method RecordAnswer(session: Session, id: string, ref: Option<string>, url: Option<string>, now: Time)
    returns (outcome: Outcome)
    modifies session
    ensures (session.db, outcome) == RecordAttempt(old(session.db), id, ref, url, now)
    ensures session.committed == session.db
    ensures RowsKeyed(old(session.db).tables) ==>
              var t := old(session.db).tables;
              if id in t.snapshots && t.snapshots[id].status == Awaiting
              then Tried(old(session.db), session.db, id, ref, url, now, outcome)
              else session.db == old(session.db) && outcome == AlreadyAnswered
  {
    if RowsKeyed(session.db.tables) {
      RecordExact(session.db, id, ref, url, now);
    }
    hide Tried;
    if id !in session.db.tables.snapshots || session.db.tables.snapshots[id].status != Awaiting {
      outcome := AlreadyAnswered;
    } else {
      var snap := session.db.tables.snapshots[id];
      snap := snap.(attempts := snap.attempts + 1);
      var attempts := snap.attempts;
      snap := snap.(providerRef := ref);
      if Truthy(url) {
        snap := snap.(snapshotUrl := url, status := Confirmed, confirmedAt := Some(now));
        session.Update(PutSnapshot(session.db.tables, snap), SnapshotLogged(SnapshotConfirmed, snap));
        outcome := Resolved;
      } else if attempts >= MAX_ATTEMPTS {
        snap := snap.(status := GaveUp);
        session.Update(PutSnapshot(session.db.tables, snap), SnapshotLogged(SnapshotFailed, snap));
        outcome := Abandoned;
      } else {
        session.Update(PutSnapshot(session.db.tables, snap), SnapshotAttempted(snap.id, attempts));
        outcome := StillPending;
      }
    }
    session.Commit();
  }

  lemma RecordAttemptFaithful(db: Db, id: string, ref: Option<string>, url: Option<string>, now: Time)
    requires Faithful(db)
    ensures Faithful(RecordAttempt(db, id, ref, url, now).0)
  {
    if Answerable(db, id) {
      var s := Attempted(db.tables.snapshots[id], ref, url, now);
      LogSnapshot(db, s, AttemptEvent(s));
    }
  }

  // ----- One poll -----

  /** What the archive says while one item is on the network; None is an exception. */
  datatype Answer = Answer(check: Option<Option<string>>, resubmit: Submission)

  /** With no job to wait for, the archive is asked to save the page again. */
  predicate Resubmits(item: Due, a: Answer) {
    a.check == Some(None) && item.attempts + 1 < MAX_ATTEMPTS && !Truthy(item.providerRef)
  }

  /** The job id and URL to record for an item. */
  function Ask(item: Due, a: Answer): (Option<string>, Option<string>) {
    if a.check.None? then (item.providerRef, None)
    else if Resubmits(item, a) then
      match a.resubmit
      case Refused => (item.providerRef, None)
      case Accepted(_, ref, url) => (ref, url)
    else (item.providerRef, a.check.value)
  }

  /** A call to the archive raised, which makes the run partial. */
  predicate Raised(item: Due, a: Answer) {
    a.check.None? || (Resubmits(item, a) && a.resubmit.Refused?)
  }

  /** An item's answer and the moment it is recorded. */
  datatype Reply = Reply(answer: Answer, at: Time)

  function Poll(db: Db, due: seq<Due>, replies: nat -> Reply): Db {
    if due == [] then db
    else
      var n := |due| - 1;
      var (ref, url) := Ask(due[n], replies(n).answer);
      RecordAttempt(Poll(db, due[..n], replies), due[n].id, ref, url, replies(n).at).0
  }

  /** How many items of a poll ended in this outcome. */
  function Tally(db: Db, due: seq<Due>, replies: nat -> Reply, outcome: Outcome): nat {
    if due == [] then 0
    else
      var n := |due| - 1;
      var (ref, url) := Ask(due[n], replies(n).answer);
      Tally(db, due[..n], replies, outcome) +
      if RecordAttempt(Poll(db, due[..n], replies), due[n].id, ref, url, replies(n).at).1 == outcome then 1 else 0
  }

  // ----- What a poll owes each row -----

  /** The check knew nothing, no job was under way, an attempt was left after this, and the archive took the page. */
  predicate TakenAgain(item: Due, a: Answer) {
    && a.check == Some(None) && (item.providerRef == None || item.providerRef == Some(""))
    && item.attempts + 1 < 6 && a.resubmit.Accepted?
  }

  /** The item's calls came back with this snapshot: its check, or else a new request where no job is under way. */
  predicate Finds(item: Due, a: Answer, url: string) {
    && url != ""
    && (a.check == Some(Some(url)) || (TakenAgain(item, a) && a.resubmit.snapshotUrl == Some(url)))
  }

  ghost predicate FindsAny(item: Due, a: Answer) {
    exists url :: Finds(item, a, url)
  }

  /** A waiting row after its item's answer was recorded. */
  ghost predicate PolledRow(s: Snapshot, u: Snapshot, item: Due, reply: Reply) {
    var found := FindsAny(item, reply.answer);
    && u == s.(attempts := s.attempts + 1, providerRef := u.providerRef, status := u.status,
               snapshotUrl := u.snapshotUrl, confirmedAt := u.confirmedAt)
    && (u.status == Confirmed <==> found)
    && (forall url :: Finds(item, reply.answer, url) ==> u.snapshotUrl == Some(url) && u.confirmedAt == Some(reply.at))
    && (!found ==> u.snapshotUrl == s.snapshotUrl && u.confirmedAt == s.confirmedAt)
    && (u.status == GaveUp <==> !found && s.attempts + 1 >= 6)
    && (u.status == Awaiting <==> !found && s.attempts + 1 < 6)
    && u.providerRef == if TakenAgain(item, reply.answer) then reply.answer.resubmit.providerRef else item.providerRef
  }

  predicate Waits(t: Tables, id: string) {
    id in t.snapshots && t.snapshots[id].status == Awaiting
  }

  ghost predicate Polled(t: Tables, u: Tables, item: Due, reply: Reply) {
    Waits(t, item.id) ==> item.id in u.snapshots && PolledRow(t.snapshots[item.id], u.snapshots[item.id], item, reply)
  }

  predicate SameRow(t: Tables, u: Tables, id: string) {
    (id in t.snapshots <==> id in u.snapshots) && (id in t.snapshots ==> u.snapshots[id] == t.snapshots[id])
  }

  ghost predicate GivesUp(t: Tables, item: Due, a: Answer) {
    Waits(t, item.id) && !FindsAny(item, a) && t.snapshots[item.id].attempts + 1 >= 6
  }

  /** What Ask hands on is what the calls found, and the job that is still to be waited for. */
  lemma AskExact(item: Due, a: Answer)
    ensures var (ref, url) := Ask(item, a);
      && (forall x :: Finds(item, a, x) <==> x != "" && url == Some(x))
      && ref == if TakenAgain(item, a) then a.resubmit.providerRef else item.providerRef
  {
  }

  lemma RecordPolls(db: Db, item: Due, reply: Reply)
    requires RowsKeyed(db.tables)
    ensures var (ref, url) := Ask(item, reply.answer);
      var (d, outcome) := RecordAttempt(db, item.id, ref, url, reply.at);
      && RowsKeyed(d.tables) && Polled(db.tables, d.tables, item, reply)
      && (forall id :: id != item.id || !Waits(db.tables, id) ==> SameRow(db.tables, d.tables, id))
      && d.tables == db.tables.(snapshots := d.tables.snapshots)
      && (outcome == Resolved <==> Waits(db.tables, item.id) && FindsAny(item, reply.answer))
      && (outcome == Abandoned <==> GivesUp(db.tables, item, reply.answer))
      && (outcome == AlreadyAnswered <==> !Waits(db.tables, item.id))
  {
    hide Ask, Finds, TakenAgain, RecordAttempt;
    AskExact(item, reply.answer);
    var (ref, url) := Ask(item, reply.answer);
    RecordExact(db, item.id, ref, url, reply.at);
    assert FindsAny(item, reply.answer) <==> url.Some? && url.value != "" by {
      if url.Some? && url.value != "" {
        assert Finds(item, reply.answer, url.value);
      }
    }
  }

  predicate IsItem(due: seq<Due>, id: string) {
    exists i :: 0 <= i < |due| && due[i].id == id
  }

  /** Every item's row as its answer says, and no other row touched. */
  ghost predicate PollDone(t: Tables, u: Tables, due: seq<Due>, replies: nat -> Reply) {
    && u == t.(snapshots := u.snapshots)
    && (forall i :: 0 <= i < |due| ==> Polled(t, u, due[i], replies(i)))
    && forall id :: !IsItem(due, id) || !Waits(t, id) ==> SameRow(t, u, id)
  }

  lemma ItemBefore(due: seq<Due>, id: string)
    requires due != []
    ensures IsItem(due, id) <==> IsItem(due[..|due| - 1], id) || due[|due| - 1].id == id
  {
    var n := |due| - 1;
    if due[n].id == id {
      assert IsItem(due, id);
    }
    if IsItem(due[..n], id) {
      var i :| 0 <= i < n && due[..n][i].id == id;
      assert due[i].id == id;
    }
  }

  lemma PollDoneNext(t: Tables, u: Tables, v: Tables, due: seq<Due>, replies: nat -> Reply)
    requires due != [] && DistinctItems(due) && PollDone(t, u, due[..|due| - 1], replies)
    requires var item := due[|due| - 1];
      && Polled(u, v, item, replies(|due| - 1)) && v == u.(snapshots := v.snapshots)
      && forall id :: id != item.id || !Waits(u, id) ==> SameRow(u, v, id)
    ensures PollDone(t, v, due, replies)
  {
    hide PolledRow;
    var n, item := |due| - 1, due[|due| - 1];
    assert !IsItem(due[..n], item.id);
    assert SameRow(t, u, item.id);
    forall i | 0 <= i < |due| ensures Polled(t, v, due[i], replies(i)) {
      if i < n {
        assert due[..n][i] == due[i] && due[i].id != item.id;
        assert Polled(t, u, due[..n][i], replies(i)) && SameRow(u, v, due[i].id);
      }
    }
    forall id | !IsItem(due, id) || !Waits(t, id) ensures SameRow(t, v, id) {
      ItemBefore(due, id);
      assert SameRow(t, u, id) && SameRow(u, v, id);
    }
  }

  /** The places of the items that a poll confirms, gives up, and finds answered. */
  ghost function ConfirmedAt(t: Tables, due: seq<Due>, replies: nat -> Reply): set<int> {
    set i | 0 <= i < |due| && Waits(t, due[i].id) && FindsAny(due[i], replies(i).answer)
  }

  ghost function GivenUpAt(t: Tables, due: seq<Due>, replies: nat -> Reply): set<int> {
    set i | 0 <= i < |due| && GivesUp(t, due[i], replies(i).answer)
  }

  ghost function AnsweredAt(t: Tables, due: seq<Due>): set<int> {
    set i | 0 <= i < |due| && !Waits(t, due[i].id)
  }

  lemma ConfirmedNext(t: Tables, due: seq<Due>, replies: nat -> Reply)
    requires due != []
    ensures var n := |due| - 1;
      |ConfirmedAt(t, due, replies)|
      == |ConfirmedAt(t, due[..n], replies)|
         + if Waits(t, due[n].id) && FindsAny(due[n], replies(n).answer) then 1 else 0
  {
    hide FindsAny;
    var n := |due| - 1;
    var confirmed := Waits(t, due[n].id) && FindsAny(due[n], replies(n).answer);
    assert ConfirmedAt(t, due, replies) == ConfirmedAt(t, due[..n], replies) + if confirmed then {n} else {};
  }

  lemma GivenUpNext(t: Tables, due: seq<Due>, replies: nat -> Reply)
    requires due != []
    ensures var n := |due| - 1;
      |GivenUpAt(t, due, replies)|
      == |GivenUpAt(t, due[..n], replies)| + if GivesUp(t, due[n], replies(n).answer) then 1 else 0
  {
    hide GivesUp;
    var n := |due| - 1;
    assert GivenUpAt(t, due, replies)
        == GivenUpAt(t, due[..n], replies) + if GivesUp(t, due[n], replies(n).answer) then {n} else {};
  }

  lemma AnsweredNext(t: Tables, due: seq<Due>)
    requires due != []
    ensures var n := |due| - 1; |AnsweredAt(t, due)| == |AnsweredAt(t, due[..n])| + if Waits(t, due[n].id) then 0 else 1
  {
    hide Waits;
    var n := |due| - 1;
    assert AnsweredAt(t, due) == AnsweredAt(t, due[..n]) + if Waits(t, due[n].id) then {} else {n};
  }

  lemma NothingPolled(t: Tables, replies: nat -> Reply)
    ensures PollDone(t, t, [], replies)
    ensures ConfirmedAt(t, [], replies) == {} && GivenUpAt(t, [], replies) == {} && AnsweredAt(t, []) == {}
  {
  }

  /** A poll does to every row what its answer says, and counts it. */
  lemma {:induction false} PollExact(db: Db, due: seq<Due>, replies: nat -> Reply)
    requires RowsKeyed(db.tables) && DistinctItems(due)
    ensures var d := Poll(db, due, replies);
      RowsKeyed(d.tables) && PollDone(db.tables, d.tables, due, replies)
    ensures Tally(db, due, replies, Resolved) == |ConfirmedAt(db.tables, due, replies)|
    ensures Tally(db, due, replies, Abandoned) == |GivenUpAt(db.tables, due, replies)|
    ensures Tally(db, due, replies, AlreadyAnswered) == |AnsweredAt(db.tables, due)|
  {
    hide Ask, RecordAttempt, Polled, FindsAny, ConfirmedAt, GivenUpAt, AnsweredAt;
    if due == [] {
      NothingPolled(db.tables, replies);
    } else {
      var n, before := |due| - 1, due[..|due| - 1];
      PollExact(db, before, replies);
      var d := Poll(db, before, replies);
      RecordPolls(d, due[n], replies(n));
      PollDoneNext(db.tables, d.tables, Poll(db, due, replies).tables, due, replies);
      ConfirmedNext(db.tables, due, replies);
      GivenUpNext(db.tables, due, replies);
      AnsweredNext(db.tables, due);
      assert !IsItem(before, due[n].id) && SameRow(db.tables, d.tables, due[n].id);
    }
  }

  lemma PollNone(db: Db, due: seq<Due>, replies: nat -> Reply)
    ensures Poll(db, due[..0], replies) == db && forall o :: Tally(db, due[..0], replies, o) == 0
  {
  }

  lemma PollNext(db: Db, due: seq<Due>, replies: nat -> Reply, n: nat, outcome: Outcome)
    requires n < |due|
    ensures var before := Poll(db, due[..n], replies);
      var (ref, url) := Ask(due[n], replies(n).answer);
      var (d, o) := RecordAttempt(before, due[n].id, ref, url, replies(n).at);
      && Poll(db, due[..n + 1], replies) == d
      && Tally(db, due[..n + 1], replies, outcome)
         == Tally(db, due[..n], replies, outcome) + if o == outcome then 1 else 0
  {
    hide Ask, RecordAttempt;
    assert due[..n + 1][..n] == due[..n];
  }

  datatype Stats = Stats(pendingSeen: nat, confirmed: nat, failed: nat, deferred: nat, skipped: nat)

  /** `pending` is what the query returned at `now`. */
  method RunArchivePoll(session: Session, pending: seq<Snapshot>, now: int, replies: nat -> Reply)
    returns (stats: Stats, partial: bool)
    requires session.committed == session.db
    modifies session
    ensures var db, due := old(session.db), DueAmong(pending, now);
      && session.committed == session.db == Poll(db, due, replies)
      && stats == Stats(|pending|, Tally(db, due, replies, Resolved), Tally(db, due, replies, Abandoned),
                        |pending| - |due|, Tally(db, due, replies, AlreadyAnswered))
      && (partial <==> exists i :: 0 <= i < |due| && Raised(due[i], replies(i).answer))
    ensures var t, due := old(session.db).tables, DueAmong(pending, now);
      RowsKeyed(t) && DistinctRows(pending) ==>
        && PollDone(t, session.db.tables, due, replies)
        && stats == Stats(|pending|, |ConfirmedAt(t, due, replies)|, |GivenUpAt(t, due, replies)|, |pending| - |due|,
                          |AnsweredAt(t, due)|)
  {
    hide Ask, Raised, RecordAttempt, DueAmong, PollDone, ConfirmedAt, GivenUpAt, AnsweredAt, Tally, Poll, Tried;
    hide DistinctItems, DistinctRows;
    PollNone(session.db, DueAmong(pending, now), replies);
    var confirmed, failed, skipped := 0, 0, 0;
    partial := false;
    var due, deferred := DueSnapshots(pending, now);
    for i := 0 to |due|
      invariant session.committed == session.db == Poll(old(session.db), due[..i], replies)
      invariant confirmed == Tally(old(session.db), due[..i], replies, Resolved)
      invariant failed == Tally(old(session.db), due[..i], replies, Abandoned)
      invariant skipped == Tally(old(session.db), due[..i], replies, AlreadyAnswered)
      invariant partial <==> exists j :: 0 <= j < i && Raised(due[j], replies(j).answer)
    {
      var item, reply := due[i], replies(i);
      var (ref, url) := Ask(item, reply.answer);
      PollNext(old(session.db), due, replies, i, Resolved);
      PollNext(old(session.db), due, replies, i, Abandoned);
      PollNext(old(session.db), due, replies, i, AlreadyAnswered);
      partial := partial || Raised(item, reply.answer);
      var outcome := RecordAnswer(session, item.id, ref, url, reply.at);
      match outcome {
        case Resolved => confirmed := confirmed + 1;
        case Abandoned => failed := failed + 1;
        case AlreadyAnswered => skipped := skipped + 1;
        case StillPending =>
      }
    }
    assert due[..|due|] == due;
    if RowsKeyed(old(session.db).tables) && DistinctRows(pending) {
      DueAmongExact(pending, now);
      PollExact(old(session.db), due, replies);
    }
    stats := Stats(|pending|, confirmed, failed, deferred, skipped);
  }
}
