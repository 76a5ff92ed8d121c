/**
 What a digest computes from the rows it has read: the snapshot that best describes
 each subject, and the days its runs cover.
 */
module DigestRows {
  import opened Clock
  import opened Database
  import opened Runs

  /** Confirmed, then historical, then pending, then given up. */
  function Rank(s: SnapshotStatus): nat {
    match s
    case Confirmed => 3
    case Historical => 2
    case Awaiting => 1
    case GaveUp => 0
  }

  /** Row i is the first of the best-ranked rows of its subject among the first n. */
  predicate IsBest(rows: seq<Snapshot>, n: nat, i: nat)
    requires i < n <= |rows|
  {
    forall j :: 0 <= j < n && rows[j].subjectId == rows[i].subjectId ==>
      Rank(rows[j].status) <= Rank(rows[i].status) && (j < i ==> Rank(rows[j].status) < Rank(rows[i].status))
  }

  lemma BestNext(rows: seq<Snapshot>, n: nat, i: nat)
    requires i < n < |rows| && IsBest(rows, n, i)
    ensures var more := rows[n].subjectId == rows[i].subjectId && Rank(rows[n].status) > Rank(rows[i].status);
      IsBest(rows, n + 1, if more then n else i)
  {
  }

  /** `at` names for every subject so far the row that describes it best. */
  ghost predicate Names(rows: seq<Snapshot>, n: nat, best: map<string, Snapshot>, at: map<string, nat>) {
    && n <= |rows| && best.Keys == at.Keys
    && (forall j :: 0 <= j < n ==> rows[j].subjectId in best)
    && forall s <- at :: at[s] < n && rows[at[s]].subjectId == s && best[s] == rows[at[s]] && IsBest(rows, n, at[s])
  }

  lemma FirstBest(rows: seq<Snapshot>, n: nat)
    requires n < |rows| && forall j :: 0 <= j < n ==> rows[j].subjectId != rows[n].subjectId
    ensures IsBest(rows, n + 1, n)
  {
  }

  lemma NamesNext(rows: seq<Snapshot>, n: nat, best: map<string, Snapshot>, at: map<string, nat>)
    requires n < |rows| && Names(rows, n, best, at)
    ensures var s := rows[n];
      if s.subjectId !in best || Rank(s.status) > Rank(best[s.subjectId].status)
      then Names(rows, n + 1, best[s.subjectId := s], at[s.subjectId := n])
      else Names(rows, n + 1, best, at)
  {
    hide IsBest;
    forall s | s in at
      ensures rows[n].subjectId != s || Rank(rows[n].status) <= Rank(best[s].status) ==> IsBest(rows, n + 1, at[s])
      ensures rows[n].subjectId == s && Rank(rows[n].status) > Rank(best[s].status) ==> IsBest(rows, n + 1, n)
    {
      BestNext(rows, n, at[s]);
    }
    if rows[n].subjectId !in best {
      FirstBest(rows, n);
    }
  }

  predicate HasStatus(rows: seq<Snapshot>, subject: string, status: SnapshotStatus) {
    exists i :: 0 <= i < |rows| && rows[i].subjectId == subject && rows[i].status == status
  }

  /** Confirmed if any snapshot of the subject is, else historical, else waiting, else given up. */
  predicate Describes(rows: seq<Snapshot>, subject: string, status: SnapshotStatus) {
    && (status == Confirmed <==> HasStatus(rows, subject, Confirmed))
    && (status == Historical ==> !HasStatus(rows, subject, Confirmed))
    && (status == Awaiting ==> !HasStatus(rows, subject, Confirmed) && !HasStatus(rows, subject, Historical))
    && (status == GaveUp ==> forall other :: other != GaveUp ==> !HasStatus(rows, subject, other))
  }

  lemma BestDescribes(rows: seq<Snapshot>, i: nat)
    requires i < |rows| && IsBest(rows, |rows|, i)
    ensures Describes(rows, rows[i].subjectId, rows[i].status)
  {
  }

  lemma NamesDescribe(rows: seq<Snapshot>, best: map<string, Snapshot>, at: map<string, nat>)
    requires Names(rows, |rows|, best, at)
    ensures forall s :: s in best <==> exists i :: 0 <= i < |rows| && rows[i].subjectId == s
    ensures forall s <- best :: best[s] in rows && best[s].subjectId == s && Describes(rows, s, best[s].status)
  {
    hide IsBest, Describes;
    forall s | s in best
      ensures best[s] in rows && best[s].subjectId == s && Describes(rows, s, best[s].status)
    {
      BestDescribes(rows, at[s]);
    }
    forall s ensures s in best <==> exists i :: 0 <= i < |rows| && rows[i].subjectId == s {
      if s in best {
        assert rows[at[s]].subjectId == s;
      }
    }
  }

  /** The loop over all snapshots that keeps the best one of each subject. */
  method ArchiveBySubject(rows: seq<Snapshot>) returns (best: map<string, Snapshot>)
    ensures exists at :: Names(rows, |rows|, best, at)
    ensures forall s :: s in best <==> exists i :: 0 <= i < |rows| && rows[i].subjectId == s
    ensures forall s <- best :: best[s] in rows && best[s].subjectId == s && Describes(rows, s, best[s].status)
  {
    best := map[];
    ghost var at: map<string, nat> := map[];
    for n := 0 to |rows|
      invariant Names(rows, n, best, at)
    {
      var snap := rows[n];
      NamesNext(rows, n, best, at);
      if snap.subjectId !in best || Rank(snap.status) > Rank(best[snap.subjectId].status) {
        best := best[snap.subjectId := snap];
        at := at[snap.subjectId := n];
      }
    }
    NamesDescribe(rows, best, at);
  }

  /** A crawl or a digest that came to an end without failing. */
  predicate Covers(r: Run) {
    (r.job == "crawl" || r.job == "digest") && (r.status == Ok || r.status == Partial)
  }

  /** The day a run started on, as an ordinal: its stamp's first ten characters (Clock.StampDate). */
  function DayOf(r: Run): int {
    r.startedAt / DAY
  }

  predicate Covered(runs: seq<Run>, day: int) {
    exists i :: 0 <= i < |runs| && Covers(runs[i]) && DayOf(runs[i]) == day
  }

  /** By the dates: a day is covered if some run's stamp begins with that day's date. */
  lemma CoveredByDate(runs: seq<Run>, moment: Time)
    ensures Covered(runs, moment / DAY)
            <==> exists i :: 0 <= i < |runs| && Covers(runs[i])
                             && StampOf(runs[i].startedAt)[..10] == StampOf(moment)[..10]
  {
    hide StampOf;
    forall i | 0 <= i < |runs|
      ensures StampOf(runs[i].startedAt)[..10] == StampOf(moment)[..10] <==> DayOf(runs[i]) == moment / DAY
    {
      StampDate(runs[i].startedAt, moment);
    }
  }

  /** How many days before `forDate` runs cover without a gap. */
  method CoverageDays(runs: seq<Run>, forDate: int) returns (count: nat)
    ensures forall d :: forDate - count <= d < forDate ==> Covered(runs, d)
    ensures !Covered(runs, forDate - count - 1)
  {
    var days := set i | 0 <= i < |runs| && Covers(runs[i]) :: DayOf(runs[i]);
    assert forall d :: d in days <==> Covered(runs, d);
    count := 0;
    var cursor := forDate - 1;
    ghost var left := days;
    while cursor in days
      invariant cursor == forDate - count - 1
      invariant forall d :: cursor < d < forDate ==> d in days
      invariant left <= days && forall d :: d <= cursor && d in days ==> d in left
      decreases |left|
    {
      left := left - {cursor};
      count := count + 1;
      cursor := cursor - 1;
    }
  }
}
