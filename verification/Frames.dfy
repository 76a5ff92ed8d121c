/**
 What each transaction leaves alone: the capture states of mentions, the posts, and
 the evidence of subjects it is not about.
 */
module Frames {
  import opened Wrappers
  import opened Clock
  import opened Database
  import opened Store
  import opened CapturePipeline
  import opened ArchivePoll
  import opened Crawler
  import opened CaptureLoop
  import opened EvidenceRows
  import opened Transactions

  predicate SameCapture(m: Mention, n: Mention) {
    m.url == n.url && m.captureState == n.captureState && m.captureAttempts == n.captureAttempts
  }

  /** Mentions stay as far as capturing is concerned; new ones start pending and untried. */
  ghost predicate SameCaptures(t: Tables, u: Tables) {
    && (forall id <- t.mentions :: id in u.mentions && SameCapture(t.mentions[id], u.mentions[id]))
    && (forall id <- u.mentions ::
          id in t.mentions || (u.mentions[id].captureState == Pending && u.mentions[id].captureAttempts == 0))
  }

  lemma SameCapturesPut(t: Tables, m: Mention)
    requires m.id in t.mentions ==> SameCapture(t.mentions[m.id], m)
    requires m.id in t.mentions || (m.captureState == Pending && m.captureAttempts == 0)
    ensures SameCaptures(t, PutMention(t, m))
  {
  }

  lemma {:induction false} AbsorbAllFrame(norm: UrlNorm, db: Db, arrivals: seq<Arrival>)
    requires RowsKeyed(db.tables) && AbsorbAll(norm, db, arrivals).Some?
    ensures var t, u := db.tables, AbsorbAll(norm, db, arrivals).value.tables;
      RowsKeyed(u) && u == t.(mentions := u.mentions) && SameCaptures(t, u)
  {
    if arrivals != [] {
      var n := |arrivals| - 1;
      AbsorbAllFrame(norm, db, arrivals[..n]);
      var d, a := AbsorbAll(norm, db, arrivals[..n]).value, arrivals[n];
      var found := Find(d, norm(a.hit.url));
      if found.Some? {
        SameCapturesPut(d.tables, Merge(d, found.value, a).tables.mentions[found.value]);
      }
    }
  }

  /** Only rows the archive held before are added. */
  ghost predicate OnlyHistory(t: Tables, u: Tables) {
    && u == t.(snapshots := u.snapshots)
    && (forall id <- t.snapshots :: id in u.snapshots && u.snapshots[id] == t.snapshots[id])
    && (forall id <- u.snapshots ::
          id in t.snapshots || (u.snapshots[id].id == id && u.snapshots[id].status == Historical))
  }

  lemma {:induction false} HistoryFrame(db: Db, known: set<Option<string>>, who: Subject, provider: string,
                                        url: string,
                                        found: seq<Found>, rows: seq<Drawn>)
    requires |rows| == |found| && History(db, known, who, provider, url, found, rows).Some?
    ensures OnlyHistory(db.tables, History(db, known, who, provider, url, found, rows).value.tables)
  {
    if found != [] {
      var last := |found| - 1;
      HistoryFrame(db, known, who, provider, url, found[..last], rows[..last]);
    }
  }

  lemma SameEvidenceArtifact(t: Tables, a: Artifact, kind: string)
    requires a.id !in t.artifacts && (a.subjectType != kind || a.kind !in KINDS)
    ensures SameEvidence(t, PutArtifact(t, a), kind)
  {
  }

  lemma SameEvidenceSnapshot(t: Tables, s: Snapshot, kind: string)
    requires s.subjectType != kind
    requires s.id in t.snapshots ==> t.snapshots[s.id].subjectType != kind
    ensures SameEvidence(t, PutSnapshot(t, s), kind)
  {
  }

  /** A request answered again is still the same subject's request. */
  lemma SameEvidenceAnswer(t: Tables, s: Snapshot, kind: string)
    requires s.id in t.snapshots && s.subjectType == t.snapshots[s.id].subjectType
    requires s.subjectId == t.snapshots[s.id].subjectId
    requires s.status != Historical && t.snapshots[s.id].status != Historical
    ensures SameEvidence(t, PutSnapshot(t, s), kind)
  {
  }

  lemma SameEvidenceTransitive(t: Tables, u: Tables, v: Tables, kind: string)
    requires SameEvidence(t, u, kind) && SameEvidence(u, v, kind)
    ensures SameEvidence(t, v, kind)
  {
  }

  lemma StoreEvidenceFrame(sha: Digest, r: Record, who: Subject, url: string, e: Evidence, kind: string)
    requires StoreEvidence(sha, r, who, url, e).Some? && who.kind != kind
    ensures SameEvidence(r.db.tables, StoreEvidence(sha, r, who, url, e).value.db.tables, kind)
  {
    hide StoreEvidence, SameEvidence;
    var t := r.db.tables;
    var a, b, c, s := StoreEvidenceIs(sha, r, who, url, e);
    var one, two, three := PutArtifact(t, a), PutArtifact(PutArtifact(t, a), b), ThreeMore(t, a, b, c);
    SameEvidenceArtifact(t, a, kind);
    SameEvidenceArtifact(one, b, kind);
    SameEvidenceArtifact(two, c, kind);
    SameEvidenceSnapshot(three, s, kind);
    SameEvidenceTransitive(t, one, two, kind);
    SameEvidenceTransitive(t, two, three, kind);
    SameEvidenceTransitive(t, three, PutSnapshot(three, s), kind);
  }

  lemma SameTables(t: Tables, u: Tables, kind: string)
    requires u.artifacts == t.artifacts && u.snapshots == t.snapshots
    ensures SameEvidence(t, u, kind)
  {
  }

  lemma OnlyHistorySame(t: Tables, u: Tables, kind: string)
    requires OnlyHistory(t, u)
    ensures SameEvidence(t, u, kind)
  {
  }

  lemma KindsApart(kind: string)
    ensures kind in ATTACHABLE_KINDS ==> kind !in KINDS
    ensures "timestamp" !in KINDS && "timestamp" !in ATTACHABLE_KINDS
  {
  }

  /** A blob recorded beside the captures is nobody's evidence. */
  lemma AddBlobFrame(sha: Digest, r: Record, how: ArtifactEvent, subjectType: string, subjectId: string,
                     blobKind: string, b: Blob, kind: string)
    requires AddBlob(sha, r, how, subjectType, subjectId, blobKind, b).Some?
    requires blobKind in ATTACHABLE_KINDS || blobKind == "timestamp"
    ensures var u := AddBlob(sha, r, how, subjectType, subjectId, blobKind, b).value.db.tables;
      u == r.db.tables.(artifacts := u.artifacts) && SameEvidence(r.db.tables, u, kind)
  {
    hide SameEvidence;
    KindsApart(blobKind);
    SameEvidenceArtifact(r.db.tables, BlobRow(sha, r.files, subjectType, subjectId, blobKind, b), kind);
  }

  lemma AnswerFrame(db: Db, id: string, ref: Option<string>, url: Option<string>, at: Time, kind: string)
    requires RowsKeyed(db.tables)
    ensures var u := RecordAttempt(db, id, ref, url, at).0.tables;
      RowsKeyed(u) && u == db.tables.(snapshots := u.snapshots) && SameEvidence(db.tables, u, kind)
  {
    if Answerable(db, id) {
      SameEvidenceAnswer(db.tables, Attempted(db.tables.snapshots[id], ref, url, at), kind);
    } else {
      SameTables(db.tables, db.tables, kind);
    }
  }

  lemma MentionFrame(db: Db, m: Mention, kind: string)
    requires RowsKeyed(db.tables) && m.id in db.tables.mentions && SameCapture(db.tables.mentions[m.id], m)
    ensures var u := PutMention(db.tables, m);
      RowsKeyed(u) && SameCaptures(db.tables, u) && SameEvidence(db.tables, u, kind)
  {
    SameTables(db.tables, PutMention(db.tables, m), kind);
  }

  lemma TagFrame(db: Db, id: string, tag: string, kind: string)
    requires RowsKeyed(db.tables)
    ensures var u := Tag(db, id, tag).tables;
      && RowsKeyed(u) && u == db.tables.(mentions := u.mentions)
      && SameCaptures(db.tables, u) && SameEvidence(db.tables, u, kind)
  {
    if id in db.tables.mentions {
      MentionFrame(db, Tag(db, id, tag).tables.mentions[id], kind);
    }
    SameTables(db.tables, db.tables, kind);
  }

  lemma StatusFrame(db: Db, id: string, status: Triage, note: Option<string>, kind: string)
    requires RowsKeyed(db.tables) && id in db.tables.mentions
    ensures var u := SetStatus(db, id, status, note).value.tables;
      && RowsKeyed(u) && u == db.tables.(mentions := u.mentions)
      && SameCaptures(db.tables, u) && SameEvidence(db.tables, u, kind)
  {
    MentionFrame(db, SetStatus(db, id, status, note).value.tables.mentions[id], kind);
  }

  /** A visit touches one mention's capture state and, if it captured, that mention's evidence. */
  lemma SettleFrame(sha: Digest, r: Record, id: string, url: string, v: Visit, kind: string)
    requires RowsKeyed(r.db.tables) && Settle(sha, r, id, url, v).Some? && kind != "mention"
    ensures var t, u := r.db.tables, Settle(sha, r, id, url, v).value.db.tables;
      RowsKeyed(u) && u.posts == t.posts && SameEvidence(t, u, kind)
  {
    hide SameEvidence, StoreEvidence;
    var t, u := r.db.tables, Settle(sha, r, id, url, v).value.db.tables;
    match v
    case Fetched(e) =>
      var who := Subject("mention", id);
      var s := StoreEvidence(sha, r, who, url, e).value;
      StoreEvidenceFrame(sha, r, who, url, e, kind);
      StoreEvidenceKeyed(sha, r, who, url, e);
      SameTables(s.db.tables, u, kind);
      SameEvidenceTransitive(t, s.db.tables, u, kind);
    case _ =>
      SameTables(t, u, kind);
  }

  lemma UnknownMention(db: Db, id: string, status: Triage, note: Option<string>)
    ensures SetStatus(db, id, status, note).Some? <==> id in db.tables.mentions
  {
  }

  /** What every committed transaction keeps. */
  lemma ExecFrame(sha: Digest, norm: UrlNorm, r: Record, x: Txn)
    requires RowsKeyed(r.db.tables) && Exec(sha, norm, r, x).Some?
    ensures var t, u := r.db.tables, Exec(sha, norm, r, x).value.db.tables;
      && RowsKeyed(u)
      && (!x.Posted? ==> u.posts == t.posts)
      && (!x.Visited? ==> SameCaptures(t, u) && SameEvidence(t, u, "mention"))
      && (!x.PostCaptured? ==> SameEvidence(t, u, "post"))
  {
    hide SameEvidence, StoreEvidence, Settle, AbsorbAll, History, RecordAttempt, Tag, SetStatus, AddBlob;
    var t, u := r.db.tables, Exec(sha, norm, r, x).value.db.tables;
    match x
    case Dedupe(arrivals) =>
      AbsorbAllFrame(norm, r.db, arrivals);
      SameTables(t, u, "mention");
      SameTables(t, u, "post");
    case Visited(id, url, visit) =>
      SettleFrame(sha, r, id, url, visit, "post");
    case Posted(post) =>
      SameTables(t, u, "mention");
      SameTables(t, u, "post");
    case PostCaptured(id, url, e) =>
      StoreEvidenceFrame(sha, r, Subject("post", id), url, e, "mention");
      StoreEvidenceKeyed(sha, r, Subject("post", id), url, e);
    case Answered(id, ref, answer, at) =>
      AnswerFrame(r.db, id, ref, answer, at, "mention");
      AnswerFrame(r.db, id, ref, answer, at, "post");
    case FoundHistory(id, provider, url, found, rows) =>
      HistoryFrame(r.db, KnownUrls(r.db, id), Subject("post", id), provider, url, found, rows);
      OnlyHistorySame(t, u, "mention");
      OnlyHistorySame(t, u, "post");
    case Attached(toPost, kind, b) =>
      var who := if Truthy(toPost) then Subject("post", toPost.value) else Subject("project", "project");
      AddBlobFrame(sha, r, ArtifactAttached, who.kind, who.id, kind, b, "mention");
      AddBlobFrame(sha, r, ArtifactAttached, who.kind, who.id, kind, b, "post");
    case Stamped(b) =>
      SameTables(t, t, "mention");
      SameTables(t, t, "post");
      if r.db.log != [] {
        AddBlobFrame(sha, r, ChainTimestamped, "project", "project", "timestamp", b, "mention");
        AddBlobFrame(sha, r, ChainTimestamped, "project", "project", "timestamp", b, "post");
      }
    case Triaged(id, status, note) =>
      assert id in t.mentions by { UnknownMention(r.db, id, status, note); }
      StatusFrame(r.db, id, status, note, "mention");
      StatusFrame(r.db, id, status, note, "post");
    case Tagged(id, tag) =>
      TagFrame(r.db, id, tag, "mention");
      TagFrame(r.db, id, tag, "post");
    case Exported(_, _, _, _) =>
      SameTables(t, u, "mention");
      SameTables(t, u, "post");
  }

  /** Mentions have no artifacts but captured ones: files are attached to posts or the project. */
  ghost predicate MentionKinds(t: Tables) {
    forall id <- t.artifacts :: t.artifacts[id].subjectType == "mention" ==> t.artifacts[id].kind in KINDS
  }

  lemma MentionRows(t: Tables, id: string)
    requires MentionKinds(t)
    ensures ArtifactRows(t, Subject("mention", id)) == CaptureRows(t, Subject("mention", id))
  {
  }

  lemma StoreEvidenceKinds(sha: Digest, r: Record, who: Subject, url: string, e: Evidence)
    requires StoreEvidence(sha, r, who, url, e).Some? && MentionKinds(r.db.tables)
    ensures MentionKinds(StoreEvidence(sha, r, who, url, e).value.db.tables)
  {
    hide StoreEvidence;
    var a, b, c, s := StoreEvidenceIs(sha, r, who, url, e);
  }

  lemma SettleKinds(sha: Digest, r: Record, id: string, url: string, v: Visit)
    requires Settle(sha, r, id, url, v).Some? && MentionKinds(r.db.tables)
    ensures MentionKinds(Settle(sha, r, id, url, v).value.db.tables)
  {
    hide StoreEvidence;
    if v.Fetched? {
      StoreEvidenceKinds(sha, r, Subject("mention", id), url, v.evidence);
    }
  }

  lemma SameKinds(t: Tables, u: Tables)
    requires u.artifacts == t.artifacts
    ensures MentionKinds(t) ==> MentionKinds(u)
  {
  }

  lemma BlobKinds(sha: Digest, r: Record, how: ArtifactEvent, subjectType: string, subjectId: string, kind: string,
                  b: Blob)
    requires AddBlob(sha, r, how, subjectType, subjectId, kind, b).Some? && subjectType != "mention"
    ensures MentionKinds(r.db.tables) ==>
              MentionKinds(AddBlob(sha, r, how, subjectType, subjectId, kind, b).value.db.tables)
  {
  }

  lemma ExecKinds(sha: Digest, norm: UrlNorm, r: Record, x: Txn)
    requires RowsKeyed(r.db.tables) && MentionKinds(r.db.tables) && Exec(sha, norm, r, x).Some?
    ensures MentionKinds(Exec(sha, norm, r, x).value.db.tables)
  {
    hide StoreEvidence, Settle, AbsorbAll, History, RecordAttempt, Tag, SetStatus, AddBlob, MentionKinds;
    var t, u := r.db.tables, Exec(sha, norm, r, x).value.db.tables;
    match x
    case Dedupe(arrivals) =>
      AbsorbAllFrame(norm, r.db, arrivals);
      SameKinds(t, u);
    case Visited(id, url, visit) => SettleKinds(sha, r, id, url, visit);
    case PostCaptured(id, url, e) => StoreEvidenceKinds(sha, r, Subject("post", id), url, e);
    case Answered(id, ref, answer, at) =>
      AnswerFrame(r.db, id, ref, answer, at, "post");
      SameKinds(t, u);
    case FoundHistory(id, provider, url, found, rows) =>
      HistoryFrame(r.db, KnownUrls(r.db, id), Subject("post", id), provider, url, found, rows);
      SameKinds(t, u);
    case Attached(toPost, kind, b) =>
      var who := if Truthy(toPost) then Subject("post", toPost.value) else Subject("project", "project");
      BlobKinds(sha, r, ArtifactAttached, who.kind, who.id, kind, b);
    case Stamped(b) =>
      if r.db.log != [] {
        BlobKinds(sha, r, ChainTimestamped, "project", "project", "timestamp", b);
      }
    case Triaged(id, status, note) =>
      UnknownMention(r.db, id, status, note);
      StatusFrame(r.db, id, status, note, "post");
      SameKinds(t, u);
    case Tagged(id, tag) =>
      TagFrame(r.db, id, tag, "post");
      SameKinds(t, u);
    case _ => SameKinds(t, u);
  }

  /** Timestamp tokens among the artifacts are old ones, or the one this transaction stamped. */
  ghost predicate TokensFrom(t: Tables, u: Tables, x: Txn) {
    forall id <- u.artifacts :: u.artifacts[id].kind == "timestamp" ==>
      || (id in t.artifacts && u.artifacts[id] == t.artifacts[id])
      || (x.Stamped? && u.artifacts[id].captureMeta == x.blob.meta)
  }

  lemma StoreEvidenceTokens(sha: Digest, r: Record, who: Subject, url: string, e: Evidence, x: Txn)
    requires StoreEvidence(sha, r, who, url, e).Some?
    ensures TokensFrom(r.db.tables, StoreEvidence(sha, r, who, url, e).value.db.tables, x)
  {
    hide StoreEvidence;
    var a, b, c, s := StoreEvidenceIs(sha, r, who, url, e);
  }

  lemma BlobTokens(sha: Digest, r: Record, how: ArtifactEvent, subjectType: string, subjectId: string, kind: string,
                   b: Blob, x: Txn)
    requires AddBlob(sha, r, how, subjectType, subjectId, kind, b).Some?
    requires kind == "timestamp" ==> x.Stamped? && x.blob == b
    ensures TokensFrom(r.db.tables, AddBlob(sha, r, how, subjectType, subjectId, kind, b).value.db.tables, x)
  {
  }

  lemma SameTokens(t: Tables, u: Tables, x: Txn)
    requires u.artifacts == t.artifacts
    ensures TokensFrom(t, u, x)
  {
  }

  lemma SettleTokens(sha: Digest, norm: UrlNorm, r: Record, x: Txn)
    requires x.Visited? && Settle(sha, r, x.mentionId, x.url, x.visit).Some?
    ensures TokensFrom(r.db.tables, Settle(sha, r, x.mentionId, x.url, x.visit).value.db.tables, x)
  {
    hide StoreEvidence;
    if x.visit.Fetched? {
      StoreEvidenceTokens(sha, r, Subject("mention", x.mentionId), x.url, x.visit.evidence, x);
    }
  }

  lemma ExecTokens(sha: Digest, norm: UrlNorm, r: Record, x: Txn)
    requires RowsKeyed(r.db.tables) && Exec(sha, norm, r, x).Some?
    ensures TokensFrom(r.db.tables, Exec(sha, norm, r, x).value.db.tables, x)
    ensures x.Stamped? && r.db.log == [] ==> Exec(sha, norm, r, x).value.db == r.db
  {
    hide StoreEvidence, AbsorbAll, History, RecordAttempt, Tag, SetStatus, AddBlob, TokensFrom;
    var t, u := r.db.tables, Exec(sha, norm, r, x).value.db.tables;
    match x
    case Dedupe(arrivals) =>
      AbsorbAllFrame(norm, r.db, arrivals);
      SameTokens(t, u, x);
    case Visited(id, url, visit) => SettleTokens(sha, norm, r, x);
    case PostCaptured(id, url, e) => StoreEvidenceTokens(sha, r, Subject("post", id), url, e, x);
    case Answered(id, ref, answer, at) =>
      AnswerFrame(r.db, id, ref, answer, at, "post");
      SameTokens(t, u, x);
    case FoundHistory(id, provider, url, found, rows) =>
      HistoryFrame(r.db, KnownUrls(r.db, id), Subject("post", id), provider, url, found, rows);
      SameTokens(t, u, x);
    case Attached(toPost, kind, b) =>
      KindsApart(kind);
      var who := if Truthy(toPost) then Subject("post", toPost.value) else Subject("project", "project");
      BlobTokens(sha, r, ArtifactAttached, who.kind, who.id, kind, b, x);
    case Stamped(b) =>
      SameTokens(t, t, x);
      if r.db.log != [] {
        BlobTokens(sha, r, ChainTimestamped, "project", "project", "timestamp", b, x);
      }
    case Triaged(id, status, note) =>
      UnknownMention(r.db, id, status, note);
      StatusFrame(r.db, id, status, note, "post");
      SameTokens(t, u, x);
    case Tagged(id, tag) =>
      TagFrame(r.db, id, tag, "post");
      SameTokens(t, u, x);
    case _ => SameTokens(t, u, x);
  }

  // ----- What each transaction logs -----

  /** The events a transaction may append. */
  predicate Logs(x: Txn, e: Event) {
    match x
    case Dedupe(_) => e.MentionCreated? || e.TermsUpdated?
    case Visited(id, _, _) => e.ArtifactLogged? || e.SnapshotLogged? || (e.CaptureStateChanged? && e.mentionId == id)
    case Posted(post) => e == PostCreated(post)
    case PostCaptured(_, _, _) => e.ArtifactLogged? || e.SnapshotLogged?
    case Answered(_, _, _, _) => e.SnapshotLogged? || e.SnapshotAttempted?
    case FoundHistory(_, _, _, _, _) => e.SnapshotLogged?
    case Attached(_, _, _) => e.ArtifactLogged?
    case Stamped(_) => e.ArtifactLogged?
    case Triaged(id, status, note) => e == StatusChanged(id, status, note)
    case Tagged(_, _) => false
    case Exported(_, _, _, _) => e.ExportCreated?
  }

  /** The log grew, by events this transaction may append. */
  ghost predicate Appends(a: seq<Event>, b: seq<Event>, x: Txn) {
    |a| <= |b| && b[..|a|] == a && forall i :: |a| <= i < |b| ==> Logs(x, b[i])
  }

  lemma AppendsOne(a: seq<Event>, b: seq<Event>, e: Event, x: Txn)
    requires Appends(a, b, x) && Logs(x, e)
    ensures Appends(a, b + [e], x)
  {
    assert (b + [e])[..|a|] == b[..|a|];
  }

  lemma {:induction false} AbsorbAllLog(norm: UrlNorm, db: Db, arrivals: seq<Arrival>, x: Txn)
    requires AbsorbAll(norm, db, arrivals).Some? && x.Dedupe?
    ensures Appends(db.log, AbsorbAll(norm, db, arrivals).value.log, x)
  {
    if arrivals != [] {
      var n := |arrivals| - 1;
      AbsorbAllLog(norm, db, arrivals[..n], x);
      var d, e := AbsorbAll(norm, db, arrivals[..n]).value, AbsorbAll(norm, db, arrivals).value;
      if e.log != d.log {
        AppendsOne(db.log, d.log, e.log[|d.log|], x);
      }
    }
  }

  lemma {:induction false} StoreKindsLog(sha: Digest, db: Db, files: Files, who: Subject, c: Capture,
                                         ids: seq<string>, n: nat, x: Txn)
    requires n <= 3 == |ids| && StoreKinds(sha, db, files, who, c, ids, n).Some? && (x.Visited? || x.PostCaptured?)
    ensures Appends(db.log, StoreKinds(sha, db, files, who, c, ids, n).value.0.log, x)
  {
    if n > 0 {
      StoreKindsLog(sha, db, files, who, c, ids, n - 1, x);
      var (d, f) := StoreKinds(sha, db, files, who, c, ids, n - 1).value;
      AppendsOne(db.log, d.log, ArtifactLogged(ArtifactCreated, ArtifactRow(sha, f, who, c, ids[n - 1], n - 1)), x);
    }
  }

  lemma StoreEvidenceLog(sha: Digest, r: Record, who: Subject, url: string, e: Evidence, x: Txn)
    requires StoreEvidence(sha, r, who, url, e).Some? && (x.Visited? || x.PostCaptured?)
    ensures Appends(r.db.log, StoreEvidence(sha, r, who, url, e).value.db.log, x)
  {
    hide StoreKinds, Appends;
    StoreKindsLog(sha, r.db, r.files, who, e.capture, e.artifactIds, 3, x);
    var d := StoreKinds(sha, r.db, r.files, who, e.capture, e.artifactIds, 3).value.0;
    AppendsOne(r.db.log, d.log, SnapshotLogged(SnapshotSubmitted, RequestRow(who, url, e)), x);
  }

  lemma {:induction false} HistoryLog(db: Db, known: set<Option<string>>, who: Subject, provider: string,
                                      url: string,
                                      found: seq<Found>, rows: seq<Drawn>, x: Txn)
    requires |rows| == |found| && History(db, known, who, provider, url, found, rows).Some? && x.FoundHistory?
    ensures Appends(db.log, History(db, known, who, provider, url, found, rows).value.log, x)
  {
    if found != [] {
      var n := |found| - 1;
      HistoryLog(db, known, who, provider, url, found[..n], rows[..n], x);
      var d := History(db, known, who, provider, url, found[..n], rows[..n]).value;
      var row := HistoryRow(rows[n].id, who, provider, url, rows[n].at, found[n]);
      AppendsOne(db.log, d.log, SnapshotLogged(SnapshotHistorical, row), x);
    }
  }

  lemma StateLog(a: seq<Event>, db: Db, id: string, state: CaptureState, x: Txn)
    requires Appends(a, db.log, x) && x.Visited? && x.mentionId == id
    ensures Appends(a, RecordCaptureState(db, id, state).log, x)
  {
    if id in db.tables.mentions {
      AppendsOne(a, db.log, CaptureStateChanged(id, state, db.tables.mentions[id].captureAttempts), x);
    }
  }

  lemma SettleLog(sha: Digest, r: Record, id: string, url: string, v: Visit)
    requires Settle(sha, r, id, url, v).Some?
    ensures Appends(r.db.log, Settle(sha, r, id, url, v).value.db.log, Visited(id, url, v))
  {
    hide StoreEvidence, RecordCaptureState;
    var x := Visited(id, url, v);
    match v
    case Wait =>
    case Skip => StateLog(r.db.log, r.db, id, Skipped, x);
    case Threw => StateLog(r.db.log, CountAttempt(r.db, id), id, Failed, x);
    case Fetched(e) =>
      StoreEvidenceLog(sha, r, Subject("mention", id), url, e, x);
      StateLog(r.db.log, StoreEvidence(sha, r, Subject("mention", id), url, e).value.db, id, Captured, x);
  }

  /** A committed transaction extends the log by its own kinds of event. */
  lemma ExecLog(sha: Digest, norm: UrlNorm, r: Record, x: Txn)
    requires Exec(sha, norm, r, x).Some?
    ensures Appends(r.db.log, Exec(sha, norm, r, x).value.db.log, x)
  {
    hide StoreEvidence, Settle, AbsorbAll, History;
    match x
    case Dedupe(arrivals) => AbsorbAllLog(norm, r.db, arrivals, x);
    case Visited(id, url, visit) => SettleLog(sha, r, id, url, visit);
    case PostCaptured(id, url, e) => StoreEvidenceLog(sha, r, Subject("post", id), url, e, x);
    case FoundHistory(id, provider, url, found, rows) =>
      HistoryLog(r.db, KnownUrls(r.db, id), Subject("post", id), provider, url, found, rows, x);
    case _ =>
  }

  // ----- What a transaction needs -----

  /** The ids, the unique columns and the rows that a transaction depends on. */
  ghost predicate Admits(norm: UrlNorm, db: Db, x: Txn) {
    var t := db.tables;
    match x
    case Dedupe(arrivals) => FreeIds(norm, db, arrivals)
    case Visited(_, _, visit) => visit.Fetched? ==> Fresh(t, visit.evidence)
    case Posted(p) =>
      && p.id !in t.posts && (forall id <- t.posts :: t.posts[id].url != p.url)
      && (p.externalId.Some? ==>
            forall id <- t.posts :: t.posts[id].platform != p.platform || t.posts[id].externalId != p.externalId)
    case PostCaptured(_, _, e) => Fresh(t, e)
    case FoundHistory(id, _, _, found, rows) => |rows| == |found| && IdsFree(t, NewAt(t, id, found), rows)
    case Attached(toPost, kind, b) =>
      (Truthy(toPost) ==> toPost.value in t.posts) && kind in ATTACHABLE_KINDS && b.id !in t.artifacts
    case Stamped(b) => db.log == [] || b.id !in t.artifacts
    case Triaged(id, _, _) => id in t.mentions
    case _ => true
  }

  /** A transaction is refused exactly when one of these is taken or missing. */
  lemma ExecAdmits(sha: Digest, norm: UrlNorm, r: Record, x: Txn)
    requires x.Dedupe? ==> Sorted(r.db)
    ensures Exec(sha, norm, r, x).Some? <==> Admits(norm, r.db, x)
  {
    hide StoreEvidence, Fresh, FreeIds, IdsFree, NewAt, AbsorbAll, History, KnownUrls;
    match x
    case Dedupe(arrivals) => RunAdmits(norm, r.db, arrivals);
    case Visited(id, url, visit) =>
      if visit.Fetched? {
        StoreEvidenceFresh(sha, r, Who(id), url, visit.evidence);
      }
    case PostCaptured(id, url, e) => StoreEvidenceFresh(sha, r, Subject("post", id), url, e);
    case FoundHistory(id, provider, url, found, rows) =>
      if |rows| == |found| {
        HistoryAdmits(r.db, Subject("post", id), provider, url, found, rows);
      }
    case _ =>
  }

  // ----- Blobs -----

  lemma {:induction false} PutFirstExact(sha: Digest, files: Files, data: seq<Bytes>, n: nat)
    ensures var u := PutFirst(sha, files, data, n);
      && (forall h <- files :: h in u && u[h] == files[h])
      && forall h :: h in u <==> h in files || exists i :: 0 <= i < n && i < |data| && sha(data[i]) == h
    decreases n
  {
    if n > 0 && data != [] {
      PutFirstExact(sha, PutFile(sha, files, data[0]), data[1..], n - 1);
      var u := PutFirst(sha, files, data, n);
      forall h ensures h in u <==> h in files || exists i :: 0 <= i < n && i < |data| && sha(data[i]) == h {
        if i :| 0 <= i < n - 1 && i < |data[1..]| && sha(data[1..][i]) == h {
          assert sha(data[i + 1]) == h;
        }
        if i :| 0 <= i < n && i < |data| && sha(data[i]) == h {
          assert i > 0 ==> data[1..][i - 1] == data[i];
        }
      }
    }
  }

  lemma NoPut(sha: Digest, files: Files)
    ensures PutFirst(sha, files, [], 0) == files
  {
  }

  lemma OnePut(sha: Digest, files: Files, data: Bytes)
    ensures PutFirst(sha, files, [data], 1) == PutFile(sha, files, data)
  {
  }

  lemma KindsPut(sha: Digest, r: Record, who: Subject, c: Capture, ids: seq<string>)
    requires |ids| == 3 && StoreKinds(sha, r.db, r.files, who, c, ids, 3).Some?
    ensures StoreKinds(sha, r.db, r.files, who, c, ids, 3).value.1
            == PutFile(sha, PutFile(sha, PutFile(sha, r.files, c.png), c.pdf), c.html)
  {
    hide PutFile;
    assert StoreKinds(sha, r.db, r.files, who, c, ids, 2).Some?;
    assert StoreKinds(sha, r.db, r.files, who, c, ids, 1).Some?;
    assert StoreKinds(sha, r.db, r.files, who, c, ids, 0) == Some((r.db, r.files));
  }

  lemma EvidencePuts(sha: Digest, r: Record, who: Subject, url: string, e: Evidence)
    requires StoreEvidence(sha, r, who, url, e).Some?
    ensures StoreEvidence(sha, r, who, url, e).value.files
            == PutFirst(sha, r.files, [e.capture.png, e.capture.pdf, e.capture.html], 3)
  {
    var c, ids := e.capture, e.artifactIds;
    var f := PutFile(sha, r.files, c.png);
    KindsPut(sha, r, who, c, ids);
    hide PutFile, StoreKinds;
    assert [c.png, c.pdf, c.html][1..] == [c.pdf, c.html] && [c.pdf, c.html][1..] == [c.html];
    OnePut(sha, PutFile(sha, f, c.pdf), c.html);
  }

  /** A transaction that commits has stored all its blobs; a token for an empty log stores none. */
  lemma ExecPuts(sha: Digest, norm: UrlNorm, r: Record, x: Txn)
    requires Exec(sha, norm, r, x).Some? && (x.Stamped? ==> r.db.log != [])
    ensures Exec(sha, norm, r, x).value.files == PutFirst(sha, r.files, Data(x), |Data(x)|)
  {
    hide StoreEvidence, PutFile, PutFirst, AbsorbAll, History;
    match x
    case Visited(id, url, Fetched(e)) => EvidencePuts(sha, r, Who(id), url, e);
    case PostCaptured(id, url, e) => EvidencePuts(sha, r, Subject("post", id), url, e);
    case Attached(_, _, b) => OnePut(sha, r.files, b.data);
    case Stamped(b) => OnePut(sha, r.files, b.data);
    case _ => NoPut(sha, r.files);
  }

  /** One that dies leaves no row and no event, and of its blobs the first few that it had put. */
  lemma DeathLeavesBlobs(sha: Digest, norm: UrlNorm, r: Record, m: Move)
    requires !m.commits
    ensures var s := Step(sha, norm, r, m);
      && s.db == r.db && (forall h <- r.files :: h in s.files && s.files[h] == r.files[h])
      && forall h :: h in s.files
                     <==> h in r.files || exists i :: 0 <= i < m.puts && i < |Data(m.txn)| && sha(Data(m.txn)[i]) == h
  {
    hide Exec, Data;
    PutFirstExact(sha, r.files, Data(m.txn), m.puts);
  }
}
