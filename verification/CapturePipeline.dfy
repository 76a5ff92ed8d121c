/**
 The capture, store, archive and log steps shared by both ingestion paths.
 Row ids, clock readings and the archive's answers are arguments.
 */
module CapturePipeline {
  import opened Json
  import opened Wrappers
  import opened Clock
  import opened Database
  import opened Sessions
  import opened Store

  const KINDS := ["screenshot_png", "pdf", "html"]

  /** What a capture returns; `meta` is its metadata with source_url added. */
  datatype Capture = Capture(png: Bytes, pdf: Bytes, html: Bytes, capturedAt: string, meta: Dict)

  function DataOf(c: Capture, i: nat): Bytes {
    if i == 0 then c.png else if i == 1 then c.pdf else c.html
  }

  datatype Subject = Subject(kind: string, id: string)

  function ArtifactRow(sha: Digest, files: Files, who: Subject, c: Capture, id: string, i: nat): Artifact
    requires i < 3
  {
    Artifact(id, who.kind, who.id, KINDS[i], sha(DataOf(c, i)), PutSize(sha, files, DataOf(c, i)), c.capturedAt, c.meta)
  }

  /** The first n kinds stored and logged; None once an insert is refused. */
  function StoreKinds(sha: Digest, db: Db, files: Files, who: Subject, c: Capture, ids: seq<string>,
                      n: nat): Option<(Db, Files)>
    requires n <= 3 == |ids|
  {
    if n == 0 then Some((db, files))
    else
      match StoreKinds(sha, db, files, who, c, ids, n - 1)
      case None => None
      case Some((d, f)) =>
        match AddArtifact(d, ArtifactCreated, ArtifactRow(sha, f, who, c, ids[n - 1], n - 1))
        case None => None
        case Some(d') => Some((d', PutFile(sha, f, DataOf(c, n - 1))))
  }

  lemma {:induction false} StoreKindsStuck(sha: Digest, db: Db, files: Files, who: Subject, c: Capture,
                                           ids: seq<string>, n: nat)
    requires n <= 3 == |ids| && StoreKinds(sha, db, files, who, c, ids, n).None?
    ensures StoreKinds(sha, db, files, who, c, ids, 3).None?
    decreases 3 - n
  {
    if n < 3 {
      StoreKindsStuck(sha, db, files, who, c, ids, n + 1);
    }
  }

  /** The artifact row of one file of a capture. */
  predicate CapturedAs(t: Tables, id: string, who: Subject, kind: string, digest: string, c: Capture) {
    && id in t.artifacts
    && var a := t.artifacts[id];
    && a.id == id && a.subjectType == who.kind && a.subjectId == who.id
    && a.kind == kind && a.sha256 == digest && a.capturedAt == c.capturedAt && a.captureMeta == c.meta
  }

  /** The screenshot, the PDF and the page, each under its own id, kind and digest. */
  predicate AllCaptured(sha: Digest, t: Tables, who: Subject, c: Capture, ids: seq<string>)
    requires |ids| == 3
  {
    && CapturedAs(t, ids[0], who, "screenshot_png", sha(c.png), c)
    && CapturedAs(t, ids[1], who, "pdf", sha(c.pdf), c)
    && CapturedAs(t, ids[2], who, "html", sha(c.html), c)
  }

  /** The row's digest has a file, of the row's size. */
  predicate SizedRow(files: Files, t: Tables, id: string) {
    id in t.artifacts && t.artifacts[id].sha256 in files && t.artifacts[id].bytes == |files[t.artifacts[id].sha256]|
  }

  /** Those three rows and their events are all that came, and the files are there. */
  ghost predicate KindsStored(sha: Digest, before: Db, after: Db, files: Files, who: Subject, c: Capture,
                              ids: seq<string>)
    requires |ids| == 3
  {
    var t, u := before.tables, after.tables;
    && u == t.(artifacts := u.artifacts) && u.artifacts.Keys == t.artifacts.Keys + {ids[0], ids[1], ids[2]}
    && (forall id <- t.artifacts :: u.artifacts[id] == t.artifacts[id])
    && AllCaptured(sha, u, who, c, ids)
    && (forall i :: 0 <= i < 3 ==> SizedRow(files, u, ids[i]))
    && after.log == before.log + [ArtifactLogged(ArtifactCreated, u.artifacts[ids[0]]),
                                  ArtifactLogged(ArtifactCreated, u.artifacts[ids[1]]),
                                  ArtifactLogged(ArtifactCreated, u.artifacts[ids[2]])]
  }

  /** Three ids that no row has and that differ. */
  predicate FreshIds(t: Tables, ids: seq<string>)
    requires |ids| == 3
  {
    && ids[0] != ids[1] && ids[0] != ids[2] && ids[1] != ids[2]
    && ids[0] !in t.artifacts && ids[1] !in t.artifacts && ids[2] !in t.artifacts
  }

  /** Three rows of the right columns, one after the other, are what is asked. */
  lemma RowsStored(sha: Digest, before: Db, after: Db, files: Files, who: Subject, c: Capture, ids: seq<string>,
                   x: Artifact, y: Artifact, z: Artifact)
    requires |ids| == 3 && FreshIds(before.tables, ids)
    requires x.id == ids[0] && y.id == ids[1] && z.id == ids[2]
    requires x.kind == KINDS[0] && y.kind == KINDS[1] && z.kind == KINDS[2]
    requires x.sha256 == sha(c.png) && y.sha256 == sha(c.pdf) && z.sha256 == sha(c.html)
    requires forall a :: a == x || a == y || a == z ==>
               && a.subjectType == who.kind && a.subjectId == who.id
               && a.capturedAt == c.capturedAt && a.captureMeta == c.meta
               && a.sha256 in files && a.bytes == |files[a.sha256]|
    requires after.tables == PutArtifact(PutArtifact(PutArtifact(before.tables, x), y), z)
    requires after.log == before.log + [ArtifactLogged(ArtifactCreated, x)] + [ArtifactLogged(ArtifactCreated, y)]
                          + [ArtifactLogged(ArtifactCreated, z)]
    ensures KindsStored(sha, before, after, files, who, c, ids)
  {
    var u := after.tables;
    assert u.artifacts[ids[0]] == x && u.artifacts[ids[1]] == y && u.artifacts[ids[2]] == z;
    assert AllCaptured(sha, u, who, c, ids);
    assert forall i :: 0 <= i < 3 ==> SizedRow(files, u, ids[i]);
    hide AllCaptured, SizedRow;
  }

  lemma StoreKindsNext(sha: Digest, db: Db, files: Files, who: Subject, c: Capture, ids: seq<string>, n: nat)
    returns (row: Artifact)
    requires n < 3 == |ids|
    ensures var before := StoreKinds(sha, db, files, who, c, ids, n);
      var after := StoreKinds(sha, db, files, who, c, ids, n + 1);
      && (after.Some? <==> before.Some? && ids[n] !in before.value.0.tables.artifacts)
      && (after.Some? ==>
            && row.sha256 in after.value.1 && row.bytes == |after.value.1[row.sha256]|
            && Keeps(before.value.1, after.value.1)
            && after.value.0 == Log(before.value.0, PutArtifact(before.value.0.tables, row),
                                    ArtifactLogged(ArtifactCreated, row)))
    ensures row.id == ids[n] && row.subjectType == who.kind && row.subjectId == who.id && row.kind == KINDS[n]
    ensures row.sha256 == sha(DataOf(c, n)) && row.capturedAt == c.capturedAt && row.captureMeta == c.meta
  {
    var before := StoreKinds(sha, db, files, who, c, ids, n);
    row := ArtifactRow(sha, if before.Some? then before.value.1 else files, who, c, ids[n], n);
  }

  /** The three files are stored exactly when their ids are fresh, each under its own kind. */
  lemma StoreKindsExact(sha: Digest, db: Db, files: Files, who: Subject, c: Capture, ids: seq<string>)
    requires |ids| == 3
    ensures var r := StoreKinds(sha, db, files, who, c, ids, 3);
      && (r.Some? <==> FreshIds(db.tables, ids))
      && (r.Some? ==> KindsStored(sha, db, r.value.0, r.value.1, who, c, ids))
  {
    assert StoreKinds(sha, db, files, who, c, ids, 0) == Some((db, files));
    hide StoreKinds;
    var x := StoreKindsNext(sha, db, files, who, c, ids, 0);
    var y := StoreKindsNext(sha, db, files, who, c, ids, 1);
    var z := StoreKindsNext(sha, db, files, who, c, ids, 2);
    var r := StoreKinds(sha, db, files, who, c, ids, 3);
    if r.Some? {
      RowsStored(sha, db, r.value.0, r.value.1, who, c, ids, x, y, z);
    }
  }

  method StoreArtifacts(store: ArtifactStore, session: Session, who: Subject, c: Capture, ids: seq<string>)
    returns (ok: bool)
    requires Intact(store.sha, store.files) && |ids| == 3
    modifies store, session`db
    ensures Intact(store.sha, store.files) && Keeps(old(store.files), store.files)
    ensures var r := StoreKinds(store.sha, old(session.db), old(store.files), who, c, ids, 3);
      && (ok <==> r.Some?)
      && (ok ==> session.db == r.value.0 && store.files == r.value.1)
    ensures ok <==> FreshIds(old(session.db).tables, ids)
    ensures ok ==> KindsStored(store.sha, old(session.db), session.db, store.files, who, c, ids)
  {
    hide KindsStored, FreshIds;
    StoreKindsExact(store.sha, session.db, store.files, who, c, ids);
    ok := true;
    for i := 0 to 3
      invariant ok && Intact(store.sha, store.files) && Keeps(old(store.files), store.files)
      invariant StoreKinds(store.sha, old(session.db), old(store.files), who, c, ids, i)
                == Some((session.db, store.files))
    {
      var data := DataOf(c, i);
      ghost var files := store.files;
      var digest, size := store.Put(data, true, data);
      var row := Artifact(
        id := ids[i], subjectType := who.kind, subjectId := who.id, kind := KINDS[i], sha256 := digest, bytes := size,
        capturedAt := c.capturedAt, captureMeta := c.meta);
      assert row == ArtifactRow(store.sha, files, who, c, ids[i], i);
      ok := session.RecordArtifact(ArtifactCreated, row);
      if !ok {
        StoreKindsStuck(store.sha, old(session.db), old(store.files), who, c, ids, i + 1);
        return;
      }
    }
  }

  /** What the archive says to a submission. */
  datatype Submission = Refused | Accepted(requestUrl: string, providerRef: Option<string>, snapshotUrl: Option<string>)

  /** Python's truth of an optional string. */
  predicate Truthy(s: Option<string>) {
    s.Some? && s.value != ""
  }

  /** A network failure is recorded too: the request stays pending. */
  function SnapshotRow(id: string, who: Subject, provider: string, url: string, at: Time, confirmedAt: Time,
                       answer: Submission): Snapshot {
    match answer
    case Refused => Snapshot(id, who.kind, who.id, provider, url, None, None, Awaiting, at, None, 0)
    case Accepted(request, ref, snap) =>
      if Truthy(snap) then
        Snapshot(id, who.kind, who.id, provider, request, ref, snap, Confirmed, at, Some(confirmedAt), 0)
      else Snapshot(id, who.kind, who.id, provider, request, ref, None, Awaiting, at, None, 0)
  }

  /** The row of an archive request: confirmed when the archive answered with a snapshot, else waiting for one. */
  predicate RequestedAs(t: Tables, id: string, who: Subject, provider: string, url: string, at: Time,
                        confirmedAt: Time, answer: Submission) {
    && id in t.snapshots
    && var s := t.snapshots[id];
    var taken := answer.Accepted?;
    var confirmed := taken && Truthy(answer.snapshotUrl);
    && s.id == id && s.subjectType == who.kind && s.subjectId == who.id && s.provider == provider
    && s.submittedAt == at && s.attempts == 0
    && (s.status == Confirmed <==> confirmed) && (s.status == Awaiting <==> !confirmed)
    && (taken ==> s.requestUrl == answer.requestUrl && s.providerRef == answer.providerRef)
    && (!taken ==> s.requestUrl == url && s.providerRef == None)
    && (confirmed ==> s.snapshotUrl == answer.snapshotUrl && s.confirmedAt == Some(confirmedAt))
    && (!confirmed ==> s.snapshotUrl == None && s.confirmedAt == None)
  }

  method SubmitArchive(session: Session, id: string, who: Subject, provider: string, url: string,
                       at: Time, confirmedAt: Time, answer: Submission)
    returns (ok: bool)
    modifies session`db
    ensures var row := SnapshotRow(id, who, provider, url, at, confirmedAt, answer);
      var r := AddSnapshot(old(session.db), SnapshotSubmitted, row);
      (ok <==> r.Some?) && session.db == Committed(old(session.db), r)
    ensures ok <==> id !in old(session.db).tables.snapshots
    ensures ok ==>
              && RequestedAs(session.db.tables, id, who, provider, url, at, confirmedAt, answer)
              && session.db.tables == PutSnapshot(old(session.db).tables, session.db.tables.snapshots[id])
              && session.db.log
                 == old(session.db).log + [SnapshotLogged(SnapshotSubmitted, session.db.tables.snapshots[id])]
  {
    var row := Snapshot(id, who.kind, who.id, provider, "", None, None, Awaiting, at, None, 0);
    match answer {
      case Accepted(request, ref, snap) =>
        row := row.(requestUrl := request, providerRef := ref);
        if Truthy(snap) {
          row := row.(snapshotUrl := snap, status := Confirmed, confirmedAt := Some(confirmedAt));
        }
      case Refused =>
        row := row.(requestUrl := url);
    }
    ok := session.RecordSnapshot(SnapshotSubmitted, row);
  }

  /** The draws of one capturing transaction: what was captured, the new rows' ids, the archive's answer. */
  datatype Draw = Draw(
    capture: Capture, artifactIds: seq<string>, snapshotId: string, provider: string,
    at: Time, confirmedAt: Time, answer: Submission)

  type Evidence = d: Draw | |d.artifactIds| == 3
    witness Draw(Capture([], [], [], "", Obj([])), ["", "", ""], "", "", FIRST, FIRST, Refused)

  /** The row of a capture's archive request. */
  function RequestRow(who: Subject, url: string, e: Evidence): Snapshot {
    SnapshotRow(e.snapshotId, who, e.provider, url, e.at, e.confirmedAt, e.answer)
  }

  /** The database together with the store. */
  datatype Record = Record(db: Db, files: Files)

  /** Artifacts, then the archive request: both ingestion paths do this in one transaction. */
  function StoreEvidence(sha: Digest, r: Record, who: Subject, url: string, e: Evidence): Option<Record> {
    match StoreKinds(sha, r.db, r.files, who, e.capture, e.artifactIds, 3)
    case None => None
    case Some((d, f)) =>
      match AddSnapshot(d, SnapshotSubmitted, RequestRow(who, url, e))
      case None => None
      case Some(d') => Some(Record(d', f))
  }

  /** A subject carries this evidence: its three artifacts and its request, column by column. */
  predicate Carries(sha: Digest, t: Tables, who: Subject, url: string, e: Evidence) {
    && AllCaptured(sha, t, who, e.capture, e.artifactIds)
    && RequestedAs(t, e.snapshotId, who, e.provider, url, e.at, e.confirmedAt, e.answer)
  }

  /** A capture is stored exactly when all its ids are fresh; it adds its four rows and changes nothing else. */
  lemma StoreEvidenceRows(sha: Digest, r: Record, who: Subject, url: string, e: Evidence)
    ensures var s := StoreEvidence(sha, r, who, url, e);
      && (s.Some? <==> FreshIds(r.db.tables, e.artifactIds) && e.snapshotId !in r.db.tables.snapshots)
      && (s.Some? ==>
            && Carries(sha, s.value.db.tables, who, url, e)
            && s.value.db.tables == r.db.tables.(artifacts := s.value.db.tables.artifacts,
                                                snapshots := s.value.db.tables.snapshots))
  {
    hide StoreKinds;
    StoreKindsExact(sha, r.db, r.files, who, e.capture, e.artifactIds);
  }

  // ----- Snapshots the archive held before -----

  datatype Found = Found(snapshotUrl: string, capturedAt: Time, providerRef: string)

  /** What is drawn for each row as it is built: its id and the clock. */
  datatype Drawn = Drawn(id: string, at: Time)

  /** snapshot_url of every row of the subject, read once before the loop. */
  function KnownUrls(db: Db, subjectId: string): set<Option<string>> {
    var snapshots := db.tables.snapshots;
    set id | id in snapshots && snapshots[id].subjectId == subjectId :: snapshots[id].snapshotUrl
  }

  function HistoryRow(id: string, who: Subject, provider: string, url: string, at: Time, f: Found): Snapshot {
    Snapshot(id, who.kind, who.id, provider, url, Some(f.providerRef), Some(f.snapshotUrl), Historical, at,
             Some(f.capturedAt), 0)
  }

  function History(db: Db, known: set<Option<string>>, who: Subject, provider: string, url: string,
                   found: seq<Found>, rows: seq<Drawn>): Option<Db>
    requires |rows| == |found|
  {
    if found == [] then Some(db)
    else
      var last := |found| - 1;
      match History(db, known, who, provider, url, found[..last], rows[..last])
      case None => None
      case Some(d) =>
        if Some(found[last].snapshotUrl) in known then Some(d)
        else
          var row := HistoryRow(rows[last].id, who, provider, url, rows[last].at, found[last]);
          AddSnapshot(d, SnapshotHistorical, row)
  }

  /** How many rows a history adds. */
  function CountNew(known: set<Option<string>>, found: seq<Found>): nat {
    if found == [] then 0
    else CountNew(known, found[..|found| - 1]) + if Some(found[|found| - 1].snapshotUrl) in known then 0 else 1
  }

  lemma {:induction false} HistoryStuck(db: Db, known: set<Option<string>>, who: Subject, provider: string,
                                        url: string,
                                        found: seq<Found>, rows: seq<Drawn>, n: nat)
    requires n <= |found| == |rows| && History(db, known, who, provider, url, found[..n], rows[..n]).None?
    ensures History(db, known, who, provider, url, found, rows).None?
    decreases |found| - n
  {
    if n < |found| {
      assert found[..n + 1][..n] == found[..n] && rows[..n + 1][..n] == rows[..n];
      HistoryStuck(db, known, who, provider, url, found, rows, n + 1);
    } else {
      assert found[..n] == found && rows[..n] == rows;
    }
  }

  /** No row of the subject holds this snapshot. */
  predicate IsNew(t: Tables, subjectId: string, f: Found) {
    forall id <- t.snapshots ::
      t.snapshots[id].subjectId == subjectId ==> t.snapshots[id].snapshotUrl != Some(f.snapshotUrl)
  }

  lemma KnownExact(db: Db, subjectId: string, f: Found)
    ensures Some(f.snapshotUrl) in KnownUrls(db, subjectId) <==> !IsNew(db.tables, subjectId, f)
  {
  }

  /** Where the new snapshots stand among those found. */
  function NewAt(t: Tables, subjectId: string, found: seq<Found>): (at: set<int>)
    ensures forall i <- at :: 0 <= i < |found|
  {
    set i | 0 <= i < |found| && IsNew(t, subjectId, found[i])
  }

  /** The row of a snapshot that the archive already held. */
  predicate HeldAs(t: Tables, d: Drawn, who: Subject, provider: string, url: string, f: Found) {
    && d.id in t.snapshots
    && var s := t.snapshots[d.id];
    && s.id == d.id && s.subjectType == who.kind && s.subjectId == who.id && s.provider == provider
    && s.requestUrl == url && s.providerRef == Some(f.providerRef) && s.snapshotUrl == Some(f.snapshotUrl)
    && s.status == Historical && s.submittedAt == d.at && s.confirmedAt == Some(f.capturedAt) && s.attempts == 0
  }

  /** The row drawn for one of the new snapshots. */
  ghost predicate IsDrawn(rows: seq<Drawn>, at: set<int>, id: string) {
    exists i :: i in at && 0 <= i < |rows| && rows[i].id == id
  }

  /** One row and one event for each new snapshot, and nothing else. */
  ghost predicate HistoryAdded(before: Db, after: Db, who: Subject, provider: string, url: string,
                               found: seq<Found>, rows: seq<Drawn>)
    requires |rows| == |found|
  {
    var t, u, added := before.tables, after.tables, NewAt(before.tables, who.id, found);
    && u == t.(snapshots := u.snapshots)
    && (forall id <- t.snapshots :: id in u.snapshots && u.snapshots[id] == t.snapshots[id])
    && (forall id <- u.snapshots :: id in t.snapshots || IsDrawn(rows, added, id))
    && (forall i <- added :: rows[i].id !in t.snapshots && HeldAs(u, rows[i], who, provider, url, found[i]))
    && |after.log| == |before.log| + |added|
  }

  lemma NewAtNext(t: Tables, subjectId: string, found: seq<Found>)
    requires found != []
    ensures var n := |found| - 1;
      var before := NewAt(t, subjectId, found[..n]);
      && NewAt(t, subjectId, found) == before + (if IsNew(t, subjectId, found[n]) then {n} else {})
      && n !in before
  {
    hide IsNew;
    var n := |found| - 1;
    forall i ensures i in NewAt(t, subjectId, found)
                     <==> i in NewAt(t, subjectId, found[..n]) || (i == n && IsNew(t, subjectId, found[n]))
    {
    }
  }

  lemma NothingNew(t: Tables, subjectId: string)
    ensures NewAt(t, subjectId, []) == {}
  {
  }

  lemma LastDrawn(rows: seq<Drawn>, at: set<int>, n: nat)
    requires n < |rows| && n in at
    ensures IsDrawn(rows, at, rows[n].id)
  {
  }

  lemma DrawnMore(rows: seq<Drawn>, at: set<int>, more: set<int>, n: nat, id: string)
    requires n <= |rows| && at <= more && IsDrawn(rows[..n], at, id)
    ensures IsDrawn(rows, more, id)
  {
    var i :| i in at && 0 <= i < n && rows[..n][i].id == id;
    assert i in more && rows[i].id == id;
  }

  lemma RowHeld(t: Tables, d: Drawn, who: Subject, provider: string, url: string, f: Found)
    ensures var row := HistoryRow(d.id, who, provider, url, d.at, f);
      row.id == d.id && HeldAs(PutSnapshot(t, row), d, who, provider, url, f)
  {
  }

  lemma HeldKept(t: Tables, row: Snapshot, d: Drawn, who: Subject, provider: string, url: string, f: Found)
    requires HeldAs(t, d, who, provider, url, f) && row.id !in t.snapshots
    ensures HeldAs(PutSnapshot(t, row), d, who, provider, url, f)
  {
  }

  lemma HistoryAddedNext(before: Db, d: Db, who: Subject, provider: string, url: string, found: seq<Found>,
                         rows: seq<Drawn>)
    requires |rows| == |found| > 0
    requires var n := |found| - 1;
      && HistoryAdded(before, d, who, provider, url, found[..n], rows[..n])
      && IsNew(before.tables, who.id, found[n]) && rows[n].id !in d.tables.snapshots
    ensures var n := |found| - 1;
      var row := HistoryRow(rows[n].id, who, provider, url, rows[n].at, found[n]);
      var after := Log(d, PutSnapshot(d.tables, row), SnapshotLogged(SnapshotHistorical, row));
      HistoryAdded(before, after, who, provider, url, found, rows)
  {
    hide NewAt, IsNew, IsDrawn, HeldAs, HistoryRow;
    var n := |found| - 1;
    var row := HistoryRow(rows[n].id, who, provider, url, rows[n].at, found[n]);
    var t, u := before.tables, PutSnapshot(d.tables, row);
    var were, added := NewAt(t, who.id, found[..n]), NewAt(t, who.id, found);
    NewAtNext(t, who.id, found);
    RowHeld(d.tables, rows[n], who, provider, url, found[n]);
    forall i | i in added ensures rows[i].id !in t.snapshots && HeldAs(u, rows[i], who, provider, url, found[i]) {
      if i == n {
        RowHeld(d.tables, rows[n], who, provider, url, found[n]);
      } else {
        assert rows[..n][i] == rows[i] && found[..n][i] == found[i] && i in were;
        HeldKept(d.tables, row, rows[i], who, provider, url, found[i]);
      }
    }
    forall id | id in u.snapshots && id !in t.snapshots ensures IsDrawn(rows, added, id) {
      if id == rows[n].id {
        LastDrawn(rows, added, n);
      } else {
        DrawnMore(rows, were, added, n, id);
      }
    }
  }

  lemma HistoryAddedSame(before: Db, d: Db, who: Subject, provider: string, url: string, found: seq<Found>,
                         rows: seq<Drawn>)
    requires |rows| == |found| > 0
    requires var n := |found| - 1;
      HistoryAdded(before, d, who, provider, url, found[..n], rows[..n]) && !IsNew(before.tables, who.id, found[n])
    ensures HistoryAdded(before, d, who, provider, url, found, rows)
  {
    hide NewAt, IsNew, IsDrawn, HeldAs;
    var n := |found| - 1;
    var t := before.tables;
    NewAtNext(t, who.id, found);
    var added := NewAt(t, who.id, found);
    forall i | i in added
      ensures rows[i].id !in t.snapshots && HeldAs(d.tables, rows[i], who, provider, url, found[i])
    {
      assert rows[..n][i] == rows[i] && found[..n][i] == found[i];
    }
    forall id | id in d.tables.snapshots && id !in t.snapshots ensures IsDrawn(rows, added, id) {
      DrawnMore(rows, added, added, n, id);
    }
  }

  lemma HistoryNone(db: Db, who: Subject, provider: string, url: string)
    ensures HistoryAdded(db, db, who, provider, url, [], [])
  {
    NothingNew(db.tables, who.id);
  }

  /** What a history adds: the snapshots whose URL no row of the subject had, each once. */
  lemma {:induction false} HistoryExact(db: Db, who: Subject, provider: string, url: string, found: seq<Found>,
                                        rows: seq<Drawn>)
    requires |rows| == |found|
    ensures var r := History(db, KnownUrls(db, who.id), who, provider, url, found, rows);
      r.Some? ==> HistoryAdded(db, r.value, who, provider, url, found, rows)
    ensures CountNew(KnownUrls(db, who.id), found) == |NewAt(db.tables, who.id, found)|
  {
    hide IsNew, KnownUrls, NewAt, HistoryAdded, HistoryRow;
    if found == [] {
      NothingNew(db.tables, who.id);
      HistoryNone(db, who, provider, url);
    } else {
      var n := |found| - 1;
      HistoryExact(db, who, provider, url, found[..n], rows[..n]);
      NewAtNext(db.tables, who.id, found);
      KnownExact(db, who.id, found[n]);
      var before := History(db, KnownUrls(db, who.id), who, provider, url, found[..n], rows[..n]);
      if before.Some? {
        if !IsNew(db.tables, who.id, found[n]) {
          HistoryAddedSame(db, before.value, who, provider, url, found, rows);
        } else if rows[n].id !in before.value.tables.snapshots {
          RowHeld(before.value.tables, rows[n], who, provider, url, found[n]);
          HistoryAddedNext(db, before.value, who, provider, url, found, rows);
        } else {
          RowHeld(before.value.tables, rows[n], who, provider, url, found[n]);
        }
      }
    }
  }

  /** No row has the id of a new one, and no two new ones share one. */
  predicate IdsFree(t: Tables, at: set<int>, rows: seq<Drawn>)
    requires forall i <- at :: 0 <= i < |rows|
  {
    && (forall i <- at :: rows[i].id !in t.snapshots)
    && forall i <- at, j <- at :: i != j ==> rows[i].id != rows[j].id
  }

  lemma IdsFreePrefix(t: Tables, at: set<int>, n: nat, rows: seq<Drawn>)
    requires n < |rows| && forall i <- at :: 0 <= i < n
    ensures IdsFree(t, at, rows) <==> IdsFree(t, at, rows[..n])
    ensures IdsFree(t, at + {n}, rows) ==> IdsFree(t, at, rows)
  {
    assert forall i <- at :: rows[..n][i] == rows[i];
  }

  lemma IdsFreeNext(t: Tables, u: Tables, at: set<int>, n: nat, rows: seq<Drawn>)
    requires n < |rows| && forall i <- at :: 0 <= i < n && rows[i].id in u.snapshots
    requires forall id <- t.snapshots :: id in u.snapshots
    requires forall id <- u.snapshots :: id in t.snapshots || IsDrawn(rows[..n], at, id)
    requires IdsFree(t, at, rows)
    ensures IdsFree(t, at + {n}, rows) <==> rows[n].id !in u.snapshots
  {
    if rows[n].id in u.snapshots && rows[n].id !in t.snapshots {
      var i :| i in at && 0 <= i < |rows[..n]| && rows[..n][i].id == rows[n].id;
      assert rows[i].id == rows[n].id;
    }
  }

  lemma AddedIds(before: Db, after: Db, who: Subject, provider: string, url: string, found: seq<Found>,
                 rows: seq<Drawn>)
    requires |rows| == |found| && HistoryAdded(before, after, who, provider, url, found, rows)
    ensures var t, u, added := before.tables, after.tables, NewAt(before.tables, who.id, found);
      && (forall i <- added :: rows[i].id in u.snapshots)
      && (forall id <- t.snapshots :: id in u.snapshots)
      && forall id <- u.snapshots :: id in t.snapshots || IsDrawn(rows, added, id)
  {
  }

  lemma HistoryNext(db: Db, who: Subject, provider: string, url: string, found: seq<Found>, rows: seq<Drawn>)
    requires |rows| == |found| > 0
    ensures var n, known := |found| - 1, KnownUrls(db, who.id);
      var before := History(db, known, who, provider, url, found[..n], rows[..n]);
      History(db, known, who, provider, url, found, rows).Some?
      <==> before.Some? && (IsNew(db.tables, who.id, found[n]) ==> rows[n].id !in before.value.tables.snapshots)
  {
    KnownExact(db, who.id, found[|found| - 1]);
    hide IsNew, KnownUrls;
  }

  /** A history is refused exactly when an id that it needs is taken. */
  lemma {:induction false} HistoryAdmits(db: Db, who: Subject, provider: string, url: string, found: seq<Found>,
                                         rows: seq<Drawn>)
    requires |rows| == |found|
    ensures History(db, KnownUrls(db, who.id), who, provider, url, found, rows).Some?
            <==> IdsFree(db.tables, NewAt(db.tables, who.id, found), rows)
  {
    hide IsNew, KnownUrls, HistoryRow;
    if found == [] {
      assert NewAt(db.tables, who.id, found) == {};
    } else {
      hide NewAt, IdsFree, History, HistoryAdded, IsDrawn;
      var n := |found| - 1;
      var at, before := NewAt(db.tables, who.id, found[..n]), rows[..n];
      HistoryAdmits(db, who, provider, url, found[..n], before);
      NewAtNext(db.tables, who.id, found);
      IdsFreePrefix(db.tables, at, n, rows);
      HistoryNext(db, who, provider, url, found, rows);
      var d := History(db, KnownUrls(db, who.id), who, provider, url, found[..n], before);
      if d.Some? && IsNew(db.tables, who.id, found[n]) {
        HistoryExact(db, who, provider, url, found[..n], before);
        AddedIds(db, d.value, who, provider, url, found[..n], before);
        assert forall i <- at :: rows[i] == before[i];
        IdsFreeNext(db.tables, d.value.tables, at, n, rows);
      }
    }
  }

  /** A history recorded once is known: recording it again adds nothing. */
  lemma {:induction false} HistoryOnce(db: Db, who: Subject, provider: string, url: string, found: seq<Found>,
                                       rows: seq<Drawn>)
    requires |rows| == |found| && forall f <- found :: !IsNew(db.tables, who.id, f)
    ensures History(db, KnownUrls(db, who.id), who, provider, url, found, rows) == Some(db)
    ensures CountNew(KnownUrls(db, who.id), found) == 0
  {
    hide IsNew, KnownUrls;
    if found != [] {
      var n := |found| - 1;
      assert found[n] in found && forall f <- found[..n] :: f in found;
      HistoryOnce(db, who, provider, url, found[..n], rows[..n]);
      KnownExact(db, who.id, found[n]);
    }
  }

  lemma HistoryKnown(before: Db, after: Db, who: Subject, provider: string, url: string, found: seq<Found>,
                     rows: seq<Drawn>)
    requires |rows| == |found| && HistoryAdded(before, after, who, provider, url, found, rows)
    ensures forall f <- found :: !IsNew(after.tables, who.id, f)
  {
    forall f | f in found ensures !IsNew(after.tables, who.id, f) {
      var i :| 0 <= i < |found| && found[i] == f;
      if IsNew(before.tables, who.id, f) {
        assert i in NewAt(before.tables, who.id, found);
      }
    }
  }

  /** `answer` None: the lookup failed, which is -1 and not "nothing new". */
  method RecordHistory(session: Session, who: Subject, provider: string, url: string,
                       answer: Option<seq<Found>>, rows: seq<Drawn>)
    returns (ok: bool, added: int)
    requires answer.Some? ==> |rows| == |answer.value|
    modifies session`db
    ensures answer.None? ==> ok && added == -1 && session.db == old(session.db)
    ensures answer.Some? ==>
      var r := History(old(session.db), KnownUrls(old(session.db), who.id), who, provider, url, answer.value, rows);
      && (ok <==> r.Some?)
      && (ok ==> session.db == r.value && added == CountNew(KnownUrls(old(session.db), who.id), answer.value))
    ensures answer.Some? ==>
              (ok <==> IdsFree(old(session.db).tables, NewAt(old(session.db).tables, who.id, answer.value), rows))
    ensures answer.Some? && ok ==>
              && HistoryAdded(old(session.db), session.db, who, provider, url, answer.value, rows)
              && added == |NewAt(old(session.db).tables, who.id, answer.value)|
  {
    hide HistoryAdded, NewAt, KnownUrls, IsNew, IdsFree;
    ok := true;
    if answer.None? {
      return true, -1;
    }
    var found := answer.value;
    HistoryExact(session.db, who, provider, url, found, rows);
    HistoryAdmits(session.db, who, provider, url, found, rows);
    var known := KnownUrls(session.db, who.id);
    added := 0;
    for i := 0 to |found|
      invariant ok
      invariant History(old(session.db), known, who, provider, url, found[..i], rows[..i]) == Some(session.db)
      invariant added == CountNew(known, found[..i])
    {
      assert found[..i + 1][..i] == found[..i] && rows[..i + 1][..i] == rows[..i];
      if Some(found[i].snapshotUrl) !in known {
        var row := Snapshot(
          id := rows[i].id, subjectType := who.kind, subjectId := who.id, provider := provider, requestUrl := url,
          providerRef := Some(found[i].providerRef), snapshotUrl := Some(found[i].snapshotUrl), status := Historical,
          submittedAt := rows[i].at, confirmedAt := Some(found[i].capturedAt), attempts := 0);
        ok := session.RecordSnapshot(SnapshotHistorical, row);
        if !ok {
          HistoryStuck(old(session.db), known, who, provider, url, found, rows, i + 1);
          return;
        }
        added := added + 1;
      }
    }
    assert found[..|found|] == found && rows[..|found|] == rows;
  }

  // ----- Each of these leaves a log that replays -----

  lemma {:induction false} StoreKindsFaithful(sha: Digest, db: Db, files: Files, who: Subject, c: Capture,
                                              ids: seq<string>, n: nat)
    requires n <= 3 == |ids| && Faithful(db)
    ensures var r := StoreKinds(sha, db, files, who, c, ids, n); r.Some? ==> Faithful(r.value.0)
  {
    if n > 0 {
      StoreKindsFaithful(sha, db, files, who, c, ids, n - 1);
      var r := StoreKinds(sha, db, files, who, c, ids, n - 1);
      if r.Some? {
        AddsFaithful(r.value.0);
      }
    }
  }

  lemma StoreEvidenceFaithful(sha: Digest, r: Record, who: Subject, url: string, e: Evidence)
    requires Faithful(r.db)
    ensures var s := StoreEvidence(sha, r, who, url, e); s.Some? ==> Faithful(s.value.db)
  {
    StoreKindsFaithful(sha, r.db, r.files, who, e.capture, e.artifactIds, 3);
    var s := StoreKinds(sha, r.db, r.files, who, e.capture, e.artifactIds, 3);
    if s.Some? {
      AddsFaithful(s.value.0);
    }
  }

  lemma {:induction false} HistoryFaithful(db: Db, known: set<Option<string>>, who: Subject, provider: string,
                                           url: string,
                                           found: seq<Found>, rows: seq<Drawn>)
    requires |rows| == |found| && Faithful(db)
    ensures var r := History(db, known, who, provider, url, found, rows); r.Some? ==> Faithful(r.value)
  {
    if found != [] {
      var last := |found| - 1;
      HistoryFaithful(db, known, who, provider, url, found[..last], rows[..last]);
      var r := History(db, known, who, provider, url, found[..last], rows[..last]);
      if r.Some? {
        AddsFaithful(r.value);
      }
    }
  }
}
