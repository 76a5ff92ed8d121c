/**
 Archive polls as processes: each reads its work list in one moment, is on the
 network for any time, and records its answers one transaction at a time, while
 other polls and submissions go on around it.
 */
module PollRuns {
  import opened Wrappers
  import opened Clock
  import opened Database
  import opened Sessions
  import opened CapturePipeline
  import opened ArchivePoll

  /** `times` holds the moments at which each snapshot's attempts were recorded. */
  datatype World = World(db: Db, clock: Time, pollers: map<nat, seq<Due>>, times: map<string, seq<int>>)

  datatype Action =
    | Wait(micros: nat)
    | Submit(id: string, who: Subject, provider: string, url: string, submission: Submission)
    | RecordFound(id: string, who: Subject, provider: string, url: string, found: Found)
    | StartPoll(pid: nat, pending: seq<Snapshot>)
    | RecordNext(pid: nat, answer: Answer)
    | EndPoll(pid: nat)

  /** The rows a poll's query may return: pending ones, each once, in any order. */
  predicate IsPendingList(db: Db, pending: seq<Snapshot>) {
    && (forall s <- pending :: Answerable(db, s.id) && db.tables.snapshots[s.id] == s)
    && forall i, j :: 0 <= i < j < |pending| ==> pending[i].id != pending[j].id
  }

  function TimesOf(w: World, id: string): seq<int> {
    if id in w.times then w.times[id] else []
  }

  /** `exclusive`: no poll starts while another is at work. A step not enabled changes nothing. */
  function Step(w: World, a: Action, exclusive: bool): World {
    match a
    case Wait(us) => if w.clock + us < END then w.(clock := w.clock + us) else w
    case Submit(id, who, provider, url, answer) =>
      var row := SnapshotRow(id, who, provider, url, w.clock, w.clock, answer);
      w.(db := Committed(w.db, AddSnapshot(w.db, SnapshotSubmitted, row)))
    case RecordFound(id, who, provider, url, found) =>
      var row := HistoryRow(id, who, provider, url, w.clock, found);
      w.(db := Committed(w.db, AddSnapshot(w.db, SnapshotHistorical, row)))
    case StartPoll(pid, pending) =>
      if IsPendingList(w.db, pending) && pid !in w.pollers && (exclusive ==> w.pollers == map[]) then
        w.(pollers := w.pollers[pid := DueAmong(pending, w.clock)])
      else w
    case RecordNext(pid, answer) =>
      if pid in w.pollers && w.pollers[pid] != [] then
        var item := w.pollers[pid][0];
        var (ref, url) := Ask(item, answer);
        var next := w.(db := RecordAttempt(w.db, item.id, ref, url, w.clock).0,
                       pollers := w.pollers[pid := w.pollers[pid][1..]]);
        if Answerable(w.db, item.id) then next.(times := w.times[item.id := TimesOf(w, item.id) + [w.clock]]) else next
      else w
    case EndPoll(pid) => w.(pollers := w.pollers - {pid})
  }

  function Run(actions: seq<Action>, exclusive: bool): World {
    if actions == [] then World(EMPTY, FIRST, map[], map[])
    else Step(Run(actions[..|actions| - 1], exclusive), actions[|actions| - 1], exclusive)
  }

  // ----- What the log counts -----

  predicate IsResolution(e: Event, id: string) {
    e.SnapshotLogged? && (e.what == SnapshotConfirmed || e.what == SnapshotFailed) && e.snapshot.id == id
  }

  predicate IsAttempt(e: Event, id: string) {
    || (e.SnapshotAttempted? && e.snapshotId == id)
    || IsResolution(e, id)
  }

  function Attempts(log: seq<Event>, id: string): nat {
    if log == [] then 0 else Attempts(log[..|log| - 1], id) + if IsAttempt(log[|log| - 1], id) then 1 else 0
  }

  function Resolutions(log: seq<Event>, id: string): nat {
    if log == [] then 0 else Resolutions(log[..|log| - 1], id) + if IsResolution(log[|log| - 1], id) then 1 else 0
  }

  /** A snapshot's row, the log and the recorded moments tell one story. */
  predicate Consistent(w: World, id: string) {
    var attempts, resolutions := Attempts(w.db.log, id), Resolutions(w.db.log, id);
    if id !in w.db.tables.snapshots then attempts == 0 && TimesOf(w, id) == [] && resolutions == 0
    else
      var s := w.db.tables.snapshots[id];
      && s.id == id
      && s.attempts == attempts == |TimesOf(w, id)|
      && match s.status
         case Awaiting => attempts < MAX_ATTEMPTS && resolutions == 0
         case GaveUp => attempts == MAX_ATTEMPTS && resolutions == 1
         case Confirmed => attempts <= MAX_ATTEMPTS && (attempts > 0 <==> resolutions == 1) && resolutions <= 1
         case Historical => attempts == 0 && resolutions == 0
  }

  ghost predicate AllConsistent(w: World) {
    forall id :: Consistent(w, id)
  }

  lemma LogCounts(db: Db, t: Tables, e: Event, id: string)
    ensures Attempts(Log(db, t, e).log, id) == Attempts(db.log, id) + if IsAttempt(e, id) then 1 else 0
    ensures Resolutions(Log(db, t, e).log, id) == Resolutions(db.log, id) + if IsResolution(e, id) then 1 else 0
  {
    assert Log(db, t, e).log[..|db.log|] == db.log;
  }

  lemma ConsistentAdd(w: World, what: SnapshotEvent, s: Snapshot, id: string)
    requires AllConsistent(w) && AddSnapshot(w.db, what, s).Some?
    requires what == SnapshotSubmitted || what == SnapshotHistorical
    requires s.attempts == 0 && s.status != GaveUp
    ensures Consistent(w.(db := AddSnapshot(w.db, what, s).value), id)
  {
    assert Consistent(w, id) && Consistent(w, s.id);
    LogCounts(w.db, PutSnapshot(w.db.tables, s), SnapshotLogged(what, s), id);
  }

  lemma ConsistentRecord(w: World, id: string, ref: Option<string>, url: Option<string>, k: string)
    requires AllConsistent(w) && Answerable(w.db, id)
    ensures Consistent(w.(db := RecordAttempt(w.db, id, ref, url, w.clock).0,
                          times := w.times[id := TimesOf(w, id) + [w.clock]]), k)
  {
    assert Consistent(w, id) && Consistent(w, k);
    var s := Attempted(w.db.tables.snapshots[id], ref, url, w.clock);
    LogCounts(w.db, PutSnapshot(w.db.tables, s), AttemptEvent(s), k);
  }

  lemma ConsistentSame(w: World, v: World)
    requires AllConsistent(w) && v.db == w.db && v.times == w.times
    ensures AllConsistent(v)
  {
    forall id ensures Consistent(v, id) {
      assert Consistent(w, id);
    }
  }

  lemma ConsistentOf(w: World, v: World, id: string)
    requires Consistent(w, id) && v.db == w.db && v.times == w.times
    ensures Consistent(v, id)
  {
  }

  lemma ConsistentAnswer(w: World, item: Due, answer: Answer, v: World)
    requires AllConsistent(w) && v.clock == w.clock
    requires var (ref, url) := Ask(item, answer); v.db == RecordAttempt(w.db, item.id, ref, url, w.clock).0
    requires var more := w.times[item.id := TimesOf(w, item.id) + [w.clock]];
      v.times == if Answerable(w.db, item.id) then more else w.times
    ensures AllConsistent(v)
  {
    hide Consistent, Ask;
    var (ref, url) := Ask(item, answer);
    if Answerable(w.db, item.id) {
      forall id ensures Consistent(v, id) {
        ConsistentRecord(w, item.id, ref, url, id);
        ConsistentOf(w.(db := v.db, times := v.times), v, id);
      }
    } else {
      ConsistentSame(w, v);
    }
  }

  lemma ConsistentStep(w: World, a: Action, exclusive: bool)
    requires AllConsistent(w)
    ensures AllConsistent(Step(w, a, exclusive))
  {
    hide Consistent, Answerable, RecordAttempt, Ask, DueAmong;
    var v := Step(w, a, exclusive);
    match a
    case Submit(sid, who, provider, url, answer) =>
      var s := SnapshotRow(sid, who, provider, url, w.clock, w.clock, answer);
      if AddSnapshot(w.db, SnapshotSubmitted, s).Some? {
        forall id ensures Consistent(v, id) {
          ConsistentAdd(w, SnapshotSubmitted, s, id);
        }
      }
    case RecordFound(sid, who, provider, url, found) =>
      var s := HistoryRow(sid, who, provider, url, w.clock, found);
      if AddSnapshot(w.db, SnapshotHistorical, s).Some? {
        forall id ensures Consistent(v, id) {
          ConsistentAdd(w, SnapshotHistorical, s, id);
        }
      }
    case RecordNext(pid, answer) =>
      if pid in w.pollers && w.pollers[pid] != [] {
        ConsistentAnswer(w, w.pollers[pid][0], answer, v);
      }
    case _ => ConsistentSame(w, v);
  }

  lemma {:induction false} ConsistentRun(actions: seq<Action>, exclusive: bool)
    ensures AllConsistent(Run(actions, exclusive))
  {
    if actions != [] {
      ConsistentRun(actions[..|actions| - 1], exclusive);
      ConsistentStep(Run(actions[..|actions| - 1], exclusive), actions[|actions| - 1], exclusive);
    }
  }

  /**
   For any number of overlapping polls: a snapshot's attempts is the number of its
   attempted, confirmed and failed entries and never exceeds six; pending means fewer
   than six and nothing resolved; given up means exactly six; and at most one poll
   ever resolves it.
   */
  lemma OverlappingPolls(actions: seq<Action>, id: string)
    requires id in Run(actions, false).db.tables.snapshots
    ensures var w := Run(actions, false);
      var s := w.db.tables.snapshots[id];
      && s.attempts == Attempts(w.db.log, id) <= MAX_ATTEMPTS
      && Resolutions(w.db.log, id) <= 1
      && (s.status == Awaiting ==> s.attempts < MAX_ATTEMPTS && Resolutions(w.db.log, id) == 0)
      && (s.status == GaveUp ==> s.attempts == MAX_ATTEMPTS && Resolutions(w.db.log, id) == 1)
  {
    ConsistentRun(actions, false);
    assert Consistent(Run(actions, false), id);
  }

  predicate Final(w: World, id: string) {
    id in w.db.tables.snapshots && w.db.tables.snapshots[id].status != Awaiting
  }

  /** Confirmed, given up and historical rows never change again, whatever runs next. */
  lemma FinalStays(actions: seq<Action>, a: Action, id: string)
    requires Final(Run(actions, false), id)
    ensures var w := Run(actions, false); var w' := Step(w, a, false);
      Final(w', id) && w'.db.tables.snapshots[id] == w.db.tables.snapshots[id]
  {
    ConsistentRun(actions, false);
    var w := Run(actions, false);
    if a.RecordNext? && a.pid in w.pollers && w.pollers[a.pid] != [] {
      assert Consistent(w, w.pollers[a.pid][0].id);
    }
  }

  // ----- When attempts happen -----

  /** No attempt so far came before its time. */
  predicate OnSchedule(w: World, id: string) {
    id in w.db.tables.snapshots ==>
      forall k :: 0 <= k < |TimesOf(w, id)| ==>
        NextAttemptDue(w.db.tables.snapshots[id].submittedAt, k) <= TimesOf(w, id)[k]
  }

  ghost predicate AllOnSchedule(w: World) {
    forall id :: OnSchedule(w, id)
  }

  /** The step records an attempt. */
  predicate Records(w: World, a: Action) {
    a.RecordNext? && a.pid in w.pollers && w.pollers[a.pid] != [] && Answerable(w.db, w.pollers[a.pid][0].id)
  }

  function Recorded(w: World, a: Action): Snapshot
    requires Records(w, a)
  {
    w.db.tables.snapshots[w.pollers[a.pid][0].id]
  }

  /** The row is due when the attempt is recorded: the question of the work list, asked again under the lock. */
  predicate DueStep(w: World, a: Action) {
    Records(w, a) ==> IsDue(Recorded(w, a), w.clock)
  }

  /** No other poll has recorded an attempt since the item was read. */
  predicate FreshStep(w: World, a: Action) {
    Records(w, a) ==> w.pollers[a.pid][0].attempts == Recorded(w, a).attempts
  }

  ghost predicate AllDue(actions: seq<Action>, exclusive: bool) {
    actions != [] ==>
      var before := actions[..|actions| - 1];
      AllDue(before, exclusive) && DueStep(Run(before, exclusive), actions[|actions| - 1])
  }

  ghost predicate AllFresh(actions: seq<Action>, exclusive: bool) {
    actions != [] ==>
      var before := actions[..|actions| - 1];
      AllFresh(before, exclusive) && FreshStep(Run(before, exclusive), actions[|actions| - 1])
  }

  /** The row is still there, submitted when it was and tried no less often. */
  predicate Since(before: Db, now: Db, id: string) {
    id in before.tables.snapshots ==>
      && id in now.tables.snapshots
      && now.tables.snapshots[id].submittedAt == before.tables.snapshots[id].submittedAt
      && now.tables.snapshots[id].attempts >= before.tables.snapshots[id].attempts
  }

  lemma RowsStay(w: World, a: Action, exclusive: bool, id: string)
    requires AllConsistent(w)
    ensures Since(w.db, Step(w, a, exclusive).db, id) && Step(w, a, exclusive).clock >= w.clock
  {
    hide Attempts, Resolutions, AttemptEvent, DueAmong, Ask;
    assert Consistent(w, id);
    if a.RecordNext? && a.pid in w.pollers && w.pollers[a.pid] != [] {
      assert Consistent(w, w.pollers[a.pid][0].id);
    }
  }

  /** An item was due when it was read, and its row has only been tried more often since. */
  predicate ReadDue(w: World, item: Due) {
    && item.id in w.db.tables.snapshots
    && item.submittedAt == w.db.tables.snapshots[item.id].submittedAt
    && item.attempts <= w.db.tables.snapshots[item.id].attempts
    && NextAttemptDue(item.submittedAt, item.attempts) <= w.clock
  }

  predicate Past(w: World, id: string) {
    forall k :: 0 <= k < |TimesOf(w, id)| ==> TimesOf(w, id)[k] <= w.clock
  }

  /** No recorded moment lies ahead, and every work list was read when its items were due. */
  ghost predicate Timed(w: World) {
    && (forall id :: Past(w, id))
    && forall p <- w.pollers :: forall item <- w.pollers[p] :: ReadDue(w, item)
  }

  lemma StillPast(w: World, a: Action, exclusive: bool)
    requires forall id :: Past(w, id)
    ensures forall id :: Past(Step(w, a, exclusive), id)
  {
    hide RecordAttempt, Ask, DueAmong, AddSnapshot, IsPendingList;
    var v := Step(w, a, exclusive);
    forall id ensures Past(v, id) {
      assert Past(w, id) && v.clock >= w.clock;
      assert TimesOf(v, id) == TimesOf(w, id) || TimesOf(v, id) == TimesOf(w, id) + [w.clock];
    }
  }

  lemma StartTimed(w: World, pid: nat, pending: seq<Snapshot>, exclusive: bool)
    requires Timed(w)
    ensures Timed(Step(w, StartPoll(pid, pending), exclusive))
  {
    hide Delay;
    if IsPendingList(w.db, pending) {
      DueAmongExact(pending, w.clock);
    }
    StillPast(w, StartPoll(pid, pending), exclusive);
  }

  lemma StillReadDue(w: World, v: World, item: Due)
    requires ReadDue(w, item) && Since(w.db, v.db, item.id) && v.clock >= w.clock
    ensures ReadDue(v, item)
  {
  }

  lemma TimedStep(w: World, a: Action, exclusive: bool)
    requires AllConsistent(w) && Timed(w)
    ensures Timed(Step(w, a, exclusive))
  {
    if a.StartPoll? {
      StartTimed(w, a.pid, a.pending, exclusive);
    } else {
      hide Consistent, RecordAttempt, Ask, Since, ReadDue, DueAmong, AddSnapshot;
      var v := Step(w, a, exclusive);
      forall p, item | p in v.pollers && item in v.pollers[p] ensures ReadDue(v, item) {
        assert p in w.pollers && item in w.pollers[p];
        RowsStay(w, a, exclusive, item.id);
        StillReadDue(w, v, item);
      }
      StillPast(w, a, exclusive);
    }
  }

  lemma TimedStart()
    ensures Timed(World(EMPTY, FIRST, map[], map[]))
  {
  }

  lemma {:induction false} TimedRun(actions: seq<Action>, exclusive: bool)
    ensures Timed(Run(actions, exclusive))
  {
    hide Step, AllConsistent, Timed;
    if actions == [] {
      TimedStart();
    } else {
      var before := actions[..|actions| - 1];
      TimedRun(before, exclusive);
      ConsistentRun(before, exclusive);
      TimedStep(Run(before, exclusive), actions[|actions| - 1], exclusive);
    }
  }

  /**
   However polls overlap, an attempt recorded through an item whose count is still the
   row's is due: only an item that another poll has overtaken can be early.
   */
  lemma FreshIsDue(actions: seq<Action>, a: Action, exclusive: bool)
    ensures FreshStep(Run(actions, exclusive), a) ==> DueStep(Run(actions, exclusive), a)
  {
    hide Delay;
    TimedRun(actions, exclusive);
    var w := Run(actions, exclusive);
    if Records(w, a) {
      assert w.pollers[a.pid][0] in w.pollers[a.pid];
    }
  }

  /** The moments of a snapshot and that of its submission, which make its schedule. */
  predicate KeepsTimes(w: World, v: World, id: string) {
    && TimesOf(v, id) == TimesOf(w, id)
    && if id in w.db.tables.snapshots then
         id in v.db.tables.snapshots
         && v.db.tables.snapshots[id].submittedAt == w.db.tables.snapshots[id].submittedAt
       else TimesOf(w, id) == []
  }

  lemma SameSchedule(w: World, v: World, id: string)
    requires KeepsTimes(w, v, id)
    ensures OnSchedule(v, id) <==> OnSchedule(w, id)
  {
  }

  lemma StepKeepsTimes(w: World, a: Action, exclusive: bool, id: string)
    requires AllConsistent(w) && (Records(w, a) ==> id != w.pollers[a.pid][0].id)
    ensures KeepsTimes(w, Step(w, a, exclusive), id)
  {
    hide Attempts, Resolutions, Ask, DueAmong;
    assert Consistent(w, id);
    assert Records(w, a) ==> Consistent(w, w.pollers[a.pid][0].id);
  }

  lemma RecordTimes(w: World, a: Action, exclusive: bool)
    requires Records(w, a) && Consistent(w, w.pollers[a.pid][0].id)
    ensures var v, id := Step(w, a, exclusive), w.pollers[a.pid][0].id;
      && TimesOf(v, id) == TimesOf(w, id) + [w.clock]
      && id in v.db.tables.snapshots && v.db.tables.snapshots[id].submittedAt == w.db.tables.snapshots[id].submittedAt
      && Recorded(w, a) == w.db.tables.snapshots[id] && Recorded(w, a).attempts == |TimesOf(w, id)|
  {
    hide Attempts, Resolutions, Ask;
  }

  lemma OneMoreTime(w: World, v: World, id: string, at: int)
    requires id in w.db.tables.snapshots && id in v.db.tables.snapshots
    requires v.db.tables.snapshots[id].submittedAt == w.db.tables.snapshots[id].submittedAt
    requires TimesOf(v, id) == TimesOf(w, id) + [at]
    ensures var n := |TimesOf(w, id)|;
      OnSchedule(v, id) <==> OnSchedule(w, id) && NextAttemptDue(w.db.tables.snapshots[id].submittedAt, n) <= at
  {
    hide NextAttemptDue;
    assert forall k :: 0 <= k < |TimesOf(w, id)| ==> TimesOf(v, id)[k] == TimesOf(w, id)[k];
    assert TimesOf(v, id)[|TimesOf(w, id)|] == at;
  }

  lemma RecordExact(w: World, a: Action, exclusive: bool)
    requires AllConsistent(w) && Records(w, a)
    ensures AllOnSchedule(Step(w, a, exclusive)) <==> AllOnSchedule(w) && DueStep(w, a)
  {
    hide OnSchedule, Consistent, Step, NextAttemptDue, TimesOf;
    var v, one := Step(w, a, exclusive), w.pollers[a.pid][0].id;
    assert Consistent(w, one);
    RecordTimes(w, a, exclusive);
    OneMoreTime(w, v, one, w.clock);
    assert OnSchedule(v, one) <==> OnSchedule(w, one) && DueStep(w, a);
    forall id | id != one ensures OnSchedule(v, id) <==> OnSchedule(w, id) {
      StepKeepsTimes(w, a, exclusive, id);
      SameSchedule(w, v, id);
    }
  }

  lemma OtherExact(w: World, a: Action, exclusive: bool)
    requires AllConsistent(w) && !Records(w, a)
    ensures AllOnSchedule(Step(w, a, exclusive)) <==> AllOnSchedule(w)
  {
    hide OnSchedule, Consistent, Step, Records;
    var v := Step(w, a, exclusive);
    forall id ensures OnSchedule(v, id) <==> OnSchedule(w, id) {
      StepKeepsTimes(w, a, exclusive, id);
      SameSchedule(w, v, id);
    }
  }

  lemma ScheduleStart()
    ensures AllOnSchedule(World(EMPTY, FIRST, map[], map[]))
  {
  }

  /**
   The exact condition, for any interleaving: attempt k + 1 never comes before submission
   plus the first min(k, 5) backoffs exactly when every attempt of the run was due at
   the moment it was recorded.
   */
  lemma {:induction false} ScheduleExact(actions: seq<Action>, exclusive: bool)
    ensures AllOnSchedule(Run(actions, exclusive)) <==> AllDue(actions, exclusive)
  {
    hide Step, Records, AllConsistent, OnSchedule;
    if actions == [] {
      ScheduleStart();
    } else {
      var before, a := actions[..|actions| - 1], actions[|actions| - 1];
      ScheduleExact(before, exclusive);
      ConsistentRun(before, exclusive);
      if Records(Run(before, exclusive), a) {
        RecordExact(Run(before, exclusive), a, exclusive);
      } else {
        OtherExact(Run(before, exclusive), a, exclusive);
      }
    }
  }

  lemma {:induction false} FreshAllDue(actions: seq<Action>, exclusive: bool)
    requires AllFresh(actions, exclusive)
    ensures AllDue(actions, exclusive)
  {
    hide FreshStep, DueStep;
    if actions != [] {
      FreshAllDue(actions[..|actions| - 1], exclusive);
      FreshIsDue(actions[..|actions| - 1], actions[|actions| - 1], exclusive);
    }
  }

  /**
   As long as no attempt is recorded through an overtaken item: attempt k + 1 never comes
   before submission plus the first min(k, 5) backoffs, and no snapshot is given up in
   its first 14 h 36 m.
   */
  lemma ScheduleKept(actions: seq<Action>, exclusive: bool, id: string)
    requires AllFresh(actions, exclusive)
    requires id in Run(actions, exclusive).db.tables.snapshots
    ensures var w := Run(actions, exclusive);
      var s, times := w.db.tables.snapshots[id], TimesOf(w, id);
      && |times| == s.attempts
      && (forall k :: 0 <= k < |times| ==> NextAttemptDue(s.submittedAt, k) <= times[k] <= w.clock)
      && (s.status == GaveUp ==> w.clock >= s.submittedAt + 876 * MINUTE)
  {
    hide Run, AllFresh, AllDue, Attempts, Resolutions, Delay;
    FreshAllDue(actions, exclusive);
    ScheduleExact(actions, exclusive);
    ConsistentRun(actions, exclusive);
    TimedRun(actions, exclusive);
    var w := Run(actions, exclusive);
    assert OnSchedule(w, id) && Past(w, id) && Consistent(w, id);
    Schedule();
    if w.db.tables.snapshots[id].status == GaveUp {
      assert NextAttemptDue(w.db.tables.snapshots[id].submittedAt, 5) <= TimesOf(w, id)[5];
    }
  }

  // ----- Polls that do not overlap -----

  /** The item still shows the row's count. */
  predicate FreshItem(w: World, item: Due) {
    item.id in w.db.tables.snapshots && item.attempts == w.db.tables.snapshots[item.id].attempts
  }

  ghost predicate Exclusive(w: World) {
    && (forall p, q :: p in w.pollers && q in w.pollers ==> p == q)
    && (forall p <- w.pollers :: forall item <- w.pollers[p] :: FreshItem(w, item))
    && forall p <- w.pollers :: DistinctItems(w.pollers[p])
  }

  lemma DistinctTail(items: seq<Due>)
    requires items != [] && DistinctItems(items)
    ensures DistinctItems(items[1..])
  {
  }

  lemma ExclusiveRecord(w: World, a: Action)
    requires AllConsistent(w) && Exclusive(w) && a.RecordNext? && a.pid in w.pollers && w.pollers[a.pid] != []
    ensures Exclusive(Step(w, a, true))
  {
    hide IsAttempt, IsResolution, AttemptEvent, Attempts, Resolutions, Delay, Ask;
    var items, v := w.pollers[a.pid], Step(w, a, true);
    assert Consistent(w, items[0].id);
    forall other | other in items[1..] ensures FreshItem(v, other) {
      assert other in items && FreshItem(w, other);
      var j :| 0 <= j < |items[1..]| && items[1..][j] == other;
      assert items[j + 1] == other;
    }
    DistinctTail(items);
  }

  lemma ExclusiveStep(w: World, a: Action)
    requires AllConsistent(w) && Exclusive(w)
    ensures Exclusive(Step(w, a, true)) && FreshStep(w, a)
  {
    hide Attempts, Resolutions, Ask, Consistent, RecordAttempt, DueAmong, DistinctItems;
    match a
    case RecordNext(pid, answer) =>
      if pid in w.pollers && w.pollers[pid] != [] {
        ExclusiveRecord(w, a);
        assert w.pollers[pid][0] in w.pollers[pid];
      }
    case StartPoll(pid, pending) =>
      if IsPendingList(w.db, pending) {
        DueAmongExact(pending, w.clock);
      }
    case _ =>
      forall p, item | p in Step(w, a, true).pollers && item in Step(w, a, true).pollers[p]
        ensures FreshItem(Step(w, a, true), item)
      {
        assert FreshItem(w, item);
      }
  }

  /** Polls that never overlap record no attempt through an overtaken item. */
  lemma {:induction false} ExclusiveFresh(actions: seq<Action>)
    ensures AllFresh(actions, true) && Exclusive(Run(actions, true))
  {
    hide FreshStep;
    if actions != [] {
      ExclusiveFresh(actions[..|actions| - 1]);
      ConsistentRun(actions[..|actions| - 1], true);
      ExclusiveStep(Run(actions[..|actions| - 1], true), actions[|actions| - 1]);
    }
  }

  // ----- Overlap breaks the schedule -----

  const ROW := SnapshotRow("s", Subject("post", "p"), "wayback", "u", FIRST, FIRST, Refused)

  /** n polls read the same new snapshot at once, then the first m record a failure each. */
  function Crowd(n: nat, m: nat): seq<Action> {
    if m > 0 then Crowd(n, m - 1) + [RecordNext(m - 1, Answer(None, Refused))]
    else if n > 0 then Crowd(n - 1, 0) + [StartPoll(n - 1, [ROW])]
    else [Submit("s", Subject("post", "p"), "wayback", "u", Refused)]
  }

  ghost predicate CrowdIs(w: World, n: nat, m: nat) {
    && w.clock == FIRST && "s" in w.db.tables.snapshots
    && w.db.tables.snapshots["s"] == ROW.(attempts := m, status := if m < 6 then Awaiting else GaveUp)
    && (forall p :: m <= p < n ==> p in w.pollers && w.pollers[p] == [DueOf(ROW)])
    && (forall p :: n <= p ==> p !in w.pollers)
  }

  lemma CrowdStart(w: World, n: nat)
    requires CrowdIs(w, n, 0)
    ensures CrowdIs(Step(w, StartPoll(n, [ROW]), false), n + 1, 0)
  {
    Schedule();
    assert [ROW][..0] == [];
    assert DueAmong([ROW], FIRST) == [DueOf(ROW)];
  }

  lemma CrowdRecord(w: World, n: nat, m: nat)
    requires m < n <= 6 && CrowdIs(w, n, m)
    ensures CrowdIs(Step(w, RecordNext(m, Answer(None, Refused)), false), n, m + 1)
  {
    assert w.pollers[m][0] == DueOf(ROW);
    assert Ask(DueOf(ROW), Answer(None, Refused)) == (None, None);
  }

  lemma {:induction false} CrowdState(n: nat, m: nat)
    requires m <= n <= 6
    ensures CrowdIs(Run(Crowd(n, m), false), n, m)
  {
    var actions := Crowd(n, m);
    if m > 0 {
      CrowdState(n, m - 1);
      assert actions[..|actions| - 1] == Crowd(n, m - 1);
      CrowdRecord(Run(Crowd(n, m - 1), false), n, m - 1);
    } else if n > 0 {
      CrowdState(n - 1, 0);
      assert actions[..|actions| - 1] == Crowd(n - 1, 0);
      CrowdStart(Run(Crowd(n - 1, 0), false), n - 1);
    } else {
      assert actions[..0] == [];
    }
  }

  /**
   Six polls that overlap use up a snapshot's attempts in the moment it was submitted: five of
   their items are overtaken.
   */
  lemma OverlapGivesUpAtOnce()
    ensures var w := Run(Crowd(6, 6), false);
      && "s" in w.db.tables.snapshots && w.db.tables.snapshots["s"].status == GaveUp
      && w.clock == w.db.tables.snapshots["s"].submittedAt
  {
    CrowdState(6, 6);
  }
}
