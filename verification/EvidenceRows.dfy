/**
 The rows that are one subject's evidence, and what storing a capture does to them.
 */
module EvidenceRows {
  import opened Wrappers
  import opened Clock
  import opened Json
  import opened Database
  import opened Store
  import opened CapturePipeline

  predicate OfSubject(a: Artifact, who: Subject) {
    a.subjectType == who.kind && a.subjectId == who.id
  }

  /** Every artifact of a subject, files attached to it included. */
  function ArtifactRows(t: Tables, who: Subject): set<string> {
    set id | id in t.artifacts && OfSubject(t.artifacts[id], who)
  }

  /** An artifact that a capture stores, by its kind. */
  predicate IsCapture(a: Artifact, who: Subject) {
    OfSubject(a, who) && a.kind in KINDS
  }

  function CaptureRows(t: Tables, who: Subject): set<string> {
    set id | id in t.artifacts && IsCapture(t.artifacts[id], who)
  }

  predicate IsRequest(s: Snapshot, who: Subject) {
    s.subjectType == who.kind && s.subjectId == who.id && s.status != Historical
  }

  /** Snapshots asked for, as against those the archive held before. */
  function RequestRows(t: Tables, who: Subject): set<string> {
    set id | id in t.snapshots && IsRequest(t.snapshots[id], who)
  }

  predicate Bare(t: Tables, who: Subject) {
    CaptureRows(t, who) == {} && RequestRows(t, who) == {}
  }

  /** Exactly three captured artifacts, one of each kind, and exactly one snapshot request. */
  predicate IsEvidence(t: Tables, who: Subject, artifacts: seq<string>, request: string) {
    && |artifacts| == 3
    && CaptureRows(t, who) == {artifacts[0], artifacts[1], artifacts[2]}
    && (forall i :: 0 <= i < 3 ==> t.artifacts[artifacts[i]].kind == KINDS[i])
    && RequestRows(t, who) == {request}
  }

  ghost predicate FullEvidence(t: Tables, who: Subject) {
    exists artifacts, request :: IsEvidence(t, who, artifacts, request)
  }

  /** Artifact rows are never lost or changed. */
  ghost predicate KeepsArtifacts(t: Tables, u: Tables) {
    forall id <- t.artifacts :: id in u.artifacts && u.artifacts[id] == t.artifacts[id]
  }

  /** Nothing about the evidence of this kind of subject differs. */
  ghost predicate SameEvidence(t: Tables, u: Tables, kind: string) {
    && KeepsArtifacts(t, u)
    && (forall id, subject :: (id in t.artifacts && IsCapture(t.artifacts[id], Subject(kind, subject)))
                              <==> (id in u.artifacts && IsCapture(u.artifacts[id], Subject(kind, subject))))
    && (forall id, subject :: (id in t.snapshots && IsRequest(t.snapshots[id], Subject(kind, subject)))
                              <==> (id in u.snapshots && IsRequest(u.snapshots[id], Subject(kind, subject))))
  }

  lemma SameRows(t: Tables, u: Tables, who: Subject)
    requires SameEvidence(t, u, who.kind)
    ensures CaptureRows(t, who) == CaptureRows(u, who) && RequestRows(t, who) == RequestRows(u, who)
    ensures KeepsArtifacts(t, u)
  {
    assert forall id :: id in RequestRows(t, who) <==> id in RequestRows(u, who);
    assert forall id :: id in CaptureRows(t, who) <==> id in CaptureRows(u, who);
  }

  /** The same rows with the same artifacts in them are the same evidence. */
  lemma RowsKeepEvidence(t: Tables, u: Tables, who: Subject, artifacts: seq<string>, request: string)
    requires CaptureRows(u, who) == CaptureRows(t, who) && RequestRows(u, who) == RequestRows(t, who)
    requires KeepsArtifacts(t, u) && IsEvidence(t, who, artifacts, request)
    ensures IsEvidence(u, who, artifacts, request)
  {
    forall i | 0 <= i < 3 ensures u.artifacts[artifacts[i]].kind == KINDS[i] {
      assert artifacts[i] in CaptureRows(t, who);
    }
  }

  lemma RowsKeepFull(t: Tables, u: Tables, who: Subject)
    requires CaptureRows(u, who) == CaptureRows(t, who) && RequestRows(u, who) == RequestRows(t, who)
    requires KeepsArtifacts(t, u)
    ensures Bare(t, who) ==> Bare(u, who)
    ensures FullEvidence(t, who) ==> FullEvidence(u, who)
  {
    hide CaptureRows, RequestRows, IsEvidence, KeepsArtifacts;
    if FullEvidence(t, who) {
      var artifacts, request :| IsEvidence(t, who, artifacts, request);
      RowsKeepEvidence(t, u, who, artifacts, request);
    }
  }

  lemma SameFull(t: Tables, u: Tables, who: Subject)
    requires SameEvidence(t, u, who.kind)
    ensures Bare(t, who) ==> Bare(u, who)
    ensures FullEvidence(t, who) ==> FullEvidence(u, who)
  {
    hide SameEvidence, FullEvidence, Bare;
    SameRows(t, u, who);
    RowsKeepFull(t, u, who);
  }

  lemma CapturesAreArtifacts(t: Tables, who: Subject)
    ensures CaptureRows(t, who) <= ArtifactRows(t, who)
  {
  }

  lemma FullIsNotBare(t: Tables, who: Subject)
    ensures FullEvidence(t, who) ==> ArtifactRows(t, who) != {} && !Bare(t, who)
  {
    if FullEvidence(t, who) {
      var artifacts, request :| IsEvidence(t, who, artifacts, request);
      assert artifacts[0] in CaptureRows(t, who);
      CapturesAreArtifacts(t, who);
    }
  }

  // ----- One row more -----

  lemma AddArtifactRows(t: Tables, a: Artifact, who: Subject)
    requires a.id !in t.artifacts
    ensures var u := PutArtifact(t, a);
      && RequestRows(u, who) == RequestRows(t, who) && KeepsArtifacts(t, u)
      && ArtifactRows(u, who) == ArtifactRows(t, who) + (if OfSubject(a, who) then {a.id} else {})
      && CaptureRows(u, who) == CaptureRows(t, who) + (if IsCapture(a, who) then {a.id} else {})
  {
    hide OfSubject, IsCapture, IsRequest;
    var u := PutArtifact(t, a);
    assert forall id :: id in RequestRows(u, who) <==> id in RequestRows(t, who);
    assert forall id :: id in ArtifactRows(u, who) <==> id in ArtifactRows(t, who) || (id == a.id && OfSubject(a, who));
    assert forall id :: id in CaptureRows(u, who) <==> id in CaptureRows(t, who) || (id == a.id && IsCapture(a, who));
  }

  lemma AddSnapshotRows(t: Tables, s: Snapshot, who: Subject)
    requires s.id !in t.snapshots
    ensures var u := PutSnapshot(t, s);
      && ArtifactRows(u, who) == ArtifactRows(t, who) && CaptureRows(u, who) == CaptureRows(t, who)
      && RequestRows(u, who) == RequestRows(t, who) + (if IsRequest(s, who) then {s.id} else {})
  {
    hide OfSubject, IsCapture, IsRequest;
    var u := PutSnapshot(t, s);
    assert forall id :: id in ArtifactRows(u, who) <==> id in ArtifactRows(t, who);
    assert forall id :: id in CaptureRows(u, who) <==> id in CaptureRows(t, who);
    assert forall id :: id in RequestRows(u, who) <==> id in RequestRows(t, who) || (id == s.id && IsRequest(s, who));
  }

  // ----- A whole capture -----

  function ThreeMore(t: Tables, a: Artifact, b: Artifact, c: Artifact): Tables {
    PutArtifact(PutArtifact(PutArtifact(t, a), b), c)
  }

  /** Storing one kind more adds its row. */
  lemma StoreKindIs(sha: Digest, db: Db, files: Files, who: Subject, c: Capture, ids: seq<string>, n: nat)
    returns (a: Artifact)
    requires n < 3 == |ids| && StoreKinds(sha, db, files, who, c, ids, n + 1).Some?
    ensures StoreKinds(sha, db, files, who, c, ids, n).Some?
    ensures var before := StoreKinds(sha, db, files, who, c, ids, n).value.0.tables;
      && a.id !in before.artifacts
      && StoreKinds(sha, db, files, who, c, ids, n + 1).value.0.tables == PutArtifact(before, a)
    ensures a.id == ids[n] && a.kind == KINDS[n] && IsCapture(a, who)
  {
    a := ArtifactRow(sha, StoreKinds(sha, db, files, who, c, ids, n).value.1, who, c, ids[n], n);
  }

  lemma StoreKindsAre(sha: Digest, r: Record, who: Subject, cap: Capture, ids: seq<string>)
    returns (a: Artifact, b: Artifact, c: Artifact)
    requires |ids| == 3 && StoreKinds(sha, r.db, r.files, who, cap, ids, 3).Some?
    ensures [a.id, b.id, c.id] == ids && [a.kind, b.kind, c.kind] == KINDS
    ensures IsCapture(a, who) && IsCapture(b, who) && IsCapture(c, who)
    ensures {a.id, b.id, c.id} !! r.db.tables.artifacts.Keys
    ensures a.id != b.id && a.id != c.id && b.id != c.id
    ensures StoreKinds(sha, r.db, r.files, who, cap, ids, 3).value.0.tables == ThreeMore(r.db.tables, a, b, c)
  {
    assert StoreKinds(sha, r.db, r.files, who, cap, ids, 0) == Some((r.db, r.files));
    hide StoreKinds, IsCapture;
    c := StoreKindIs(sha, r.db, r.files, who, cap, ids, 2);
    b := StoreKindIs(sha, r.db, r.files, who, cap, ids, 1);
    a := StoreKindIs(sha, r.db, r.files, who, cap, ids, 0);
  }

  /** The rows that a capture writes when none is refused. */
  lemma StoreEvidenceIs(sha: Digest, r: Record, who: Subject, url: string, e: Evidence)
    returns (a: Artifact, b: Artifact, c: Artifact, s: Snapshot)
    requires StoreEvidence(sha, r, who, url, e).Some?
    ensures [a.id, b.id, c.id] == e.artifactIds && s.id == e.snapshotId && IsRequest(s, who)
    ensures [a.kind, b.kind, c.kind] == KINDS
    ensures IsCapture(a, who) && IsCapture(b, who) && IsCapture(c, who)
    ensures {a.id, b.id, c.id} !! r.db.tables.artifacts.Keys
    ensures a.id != b.id && a.id != c.id && b.id != c.id && s.id !in r.db.tables.snapshots
    ensures StoreEvidence(sha, r, who, url, e).value.db.tables == PutSnapshot(ThreeMore(r.db.tables, a, b, c), s)
  {
    hide StoreKinds, IsCapture;
    a, b, c := StoreKindsAre(sha, r, who, e.capture, e.artifactIds);
    s := SnapshotRow(e.snapshotId, who, e.provider, url, e.at, e.confirmedAt, e.answer);
  }

  lemma KeptByThree(t: Tables, a: Artifact, b: Artifact, c: Artifact, s: Snapshot)
    requires {a.id, b.id, c.id} !! t.artifacts.Keys
    ensures KeepsArtifacts(t, PutSnapshot(ThreeMore(t, a, b, c), s))
  {
  }

  lemma ThreeMoreRows(t: Tables, a: Artifact, b: Artifact, c: Artifact, s: Snapshot, from: Subject, who: Subject)
    requires {a.id, b.id, c.id} !! t.artifacts.Keys && s.id !in t.snapshots
    requires a.id != b.id && a.id != c.id && b.id != c.id
    requires IsCapture(a, from) && IsCapture(b, from) && IsCapture(c, from) && IsRequest(s, from)
    ensures var u := PutSnapshot(ThreeMore(t, a, b, c), s);
      && KeepsArtifacts(t, u)
      && ArtifactRows(u, who) == ArtifactRows(t, who) + (if who == from then {a.id, b.id, c.id} else {})
      && CaptureRows(u, who) == CaptureRows(t, who) + (if who == from then {a.id, b.id, c.id} else {})
      && RequestRows(u, who) == RequestRows(t, who) + (if who == from then {s.id} else {})
  {
    hide ArtifactRows, CaptureRows, RequestRows, KeepsArtifacts;
    AddArtifactRows(t, a, who);
    AddArtifactRows(PutArtifact(t, a), b, who);
    AddArtifactRows(PutArtifact(PutArtifact(t, a), b), c, who);
    AddSnapshotRows(ThreeMore(t, a, b, c), s, who);
    KeptByThree(t, a, b, c, s);
  }

  function Ids(e: Evidence): set<string> {
    {e.artifactIds[0], e.artifactIds[1], e.artifactIds[2]}
  }

  /** A capture stored for a subject without evidence gives it full evidence, and changes no other subject's. */
  lemma StoreEvidenceExact(sha: Digest, r: Record, who: Subject, url: string, e: Evidence, other: Subject)
    requires StoreEvidence(sha, r, who, url, e).Some?
    ensures var t, u := r.db.tables, StoreEvidence(sha, r, who, url, e).value.db.tables;
      && u.posts == t.posts && u.mentions == t.mentions && KeepsArtifacts(t, u)
      && Ids(e) !! t.artifacts.Keys && e.snapshotId !in t.snapshots
      && (Bare(t, who) ==> IsEvidence(u, who, e.artifactIds, e.snapshotId))
      && ArtifactRows(u, who) == ArtifactRows(t, who) + Ids(e)
      && CaptureRows(u, who) == CaptureRows(t, who) + Ids(e)
      && RequestRows(u, who) == RequestRows(t, who) + {e.snapshotId}
      && (other != who ==>
            && ArtifactRows(u, other) == ArtifactRows(t, other) && CaptureRows(u, other) == CaptureRows(t, other)
            && RequestRows(u, other) == RequestRows(t, other))
  {
    hide StoreEvidence, ArtifactRows, CaptureRows, RequestRows, KeepsArtifacts;
    var a, b, c, s := StoreEvidenceIs(sha, r, who, url, e);
    ThreeMoreRows(r.db.tables, a, b, c, s, who, who);
    ThreeMoreRows(r.db.tables, a, b, c, s, who, other);
  }

  /** Stored for a subject with full evidence or none, a capture leaves full evidence exactly where there was none. */
  lemma StoreEvidenceOnce(sha: Digest, r: Record, who: Subject, url: string, e: Evidence)
    requires StoreEvidence(sha, r, who, url, e).Some?
    requires Bare(r.db.tables, who) || FullEvidence(r.db.tables, who)
    ensures FullEvidence(StoreEvidence(sha, r, who, url, e).value.db.tables, who) <==> Bare(r.db.tables, who)
    ensures !Bare(StoreEvidence(sha, r, who, url, e).value.db.tables, who)
  {
    hide StoreEvidence, ArtifactRows, CaptureRows, KeepsArtifacts, Ids;
    StoreEvidenceExact(sha, r, who, url, e, who);
    var t, u := r.db.tables, StoreEvidence(sha, r, who, url, e).value.db.tables;
    assert e.snapshotId in RequestRows(u, who);
    FullIsNotBare(t, who);
    if FullEvidence(t, who) {
      var artifacts, request :| IsEvidence(t, who, artifacts, request);
      assert request in RequestRows(t, who) && request in t.snapshots && request in RequestRows(u, who);
    }
  }

  lemma StoreEvidenceKeys(sha: Digest, r: Record, who: Subject, url: string, e: Evidence)
    requires StoreEvidence(sha, r, who, url, e).Some?
    ensures var t, u := r.db.tables, StoreEvidence(sha, r, who, url, e).value.db.tables;
      && u.artifacts.Keys == t.artifacts.Keys + Ids(e)
      && u.snapshots.Keys == t.snapshots.Keys + {e.snapshotId}
  {
    hide StoreEvidence;
    var a, b, c, s := StoreEvidenceIs(sha, r, who, url, e);
  }

  /** Ids no row has yet, as fresh UUIDs are. */
  predicate Fresh(t: Tables, e: Evidence) {
    FreshIds(t, e.artifactIds) && e.snapshotId !in t.snapshots
  }

  /** Fresh ids are never refused, and others always. */
  lemma StoreEvidenceFresh(sha: Digest, r: Record, who: Subject, url: string, e: Evidence)
    ensures StoreEvidence(sha, r, who, url, e).Some? <==> Fresh(r.db.tables, e)
  {
    StoreEvidenceRows(sha, r, who, url, e);
  }

  lemma StoreEvidenceKeyed(sha: Digest, r: Record, who: Subject, url: string, e: Evidence)
    requires RowsKeyed(r.db.tables) && StoreEvidence(sha, r, who, url, e).Some?
    ensures var u := StoreEvidence(sha, r, who, url, e).value.db.tables;
      RowsKeyed(u) && u.posts == r.db.tables.posts && u.mentions == r.db.tables.mentions
  {
    hide StoreEvidence;
    var a, b, c, s := StoreEvidenceIs(sha, r, who, url, e);
  }

  // ----- Two captures with ids of their own -----

  function Draws(artifactIds: seq<string>, snapshotId: string): Evidence
    requires |artifactIds| == 3
  {
    Draw(Capture([], [], [], "", Obj([])), artifactIds, snapshotId, "wayback", FIRST, FIRST, Refused)
  }

  const FIRST_FETCH := Draws(["a0", "a1", "a2"], "a")
  const SECOND_FETCH := Draws(["b0", "b1", "b2"], "b")

  lemma EmptyRows(t: Tables, who: Subject)
    requires t.artifacts == map[] && t.snapshots == map[]
    ensures Bare(t, who) && Fresh(t, FIRST_FETCH) && Fresh(t, SECOND_FETCH)
    ensures Ids(FIRST_FETCH) !! Ids(SECOND_FETCH) && FIRST_FETCH.snapshotId != SECOND_FETCH.snapshotId
  {
  }

  lemma SecondFresh(t: Tables)
    requires t.artifacts.Keys == Ids(FIRST_FETCH) && t.snapshots.Keys == {FIRST_FETCH.snapshotId}
    ensures Fresh(t, SECOND_FETCH)
  {
  }

  lemma EvidenceIds(t: Tables, who: Subject, e: Evidence)
    requires IsEvidence(t, who, e.artifactIds, e.snapshotId)
    ensures CaptureRows(t, who) == Ids(e) && RequestRows(t, who) == {e.snapshotId}
  {
  }
}
