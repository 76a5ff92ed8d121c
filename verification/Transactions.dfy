/**
 Every transaction that writes the record, as one type, and what holds however they
 are interleaved: each commits as a whole or, at any point, leaves no trace but blobs
 in the store.
 */
module Transactions {
  import opened Text
  import opened Wrappers
  import opened Clock
  import opened Database
  import opened Sessions
  import opened Store
  import opened CapturePipeline
  import opened ArchivePoll
  import opened Crawler
  import opened CaptureLoop

  /** A file or token to record: the new row's id, its data, and the row's own columns. */
  datatype Blob = Blob(id: string, data: Bytes, capturedAt: string, meta: Dict)

  datatype Txn =
    | Dedupe(arrivals: seq<Arrival>)
    | Visited(mentionId: string, url: string, visit: Visit)
    | Posted(post: Post)
    | PostCaptured(postId: string, url: string, evidence: Evidence)
    | Answered(snapshotId: string, ref: Option<string>, answer: Option<string>, at: Time)
    | FoundHistory(postId: string, provider: string, url: string, found: seq<Found>, rows: seq<Drawn>)
    | Attached(toPost: Option<string>, kind: string, blob: Blob)
    | Stamped(blob: Blob)
    | Triaged(mentionId: string, status: Triage, note: Option<string>)
    | Tagged(mentionId: string, tag: string)
    | Exported(path: string, manifestSha256: string, files: nat, timestamp: Option<Dict>)

  const ATTACHABLE_KINDS := ["platform_export", "email", "document", "image", "other"]

  function BlobRow(sha: Digest, files: Files, subjectType: string, subjectId: string, kind: string, b: Blob): Artifact {
    Artifact(b.id, subjectType, subjectId, kind, sha(b.data), PutSize(sha, files, b.data), b.capturedAt, b.meta)
  }

  /** Store one blob and log its row. */
  function AddBlob(sha: Digest, r: Record, how: ArtifactEvent, subjectType: string, subjectId: string, kind: string,
                   b: Blob): Option<Record> {
    match AddArtifact(r.db, how, BlobRow(sha, r.files, subjectType, subjectId, kind, b))
    case None => None
    case Some(db) => Some(Record(db, PutFile(sha, r.files, b.data)))
  }

  /** A file for a post that exists, or for the project. */
  function Attach(sha: Digest, r: Record, toPost: Option<string>, kind: string, b: Blob): Option<Record> {
    if (Truthy(toPost) && toPost.value !in r.db.tables.posts) || kind !in ATTACHABLE_KINDS then None
    else if Truthy(toPost) then AddBlob(sha, r, ArtifactAttached, "post", toPost.value, kind, b)
    else AddBlob(sha, r, ArtifactAttached, "project", "project", kind, b)
  }

  /** A token for the head of the log; nothing when there is no head. */
  function StampHead(sha: Digest, r: Record, b: Blob): Option<Record> {
    if r.db.log == [] then Some(r) else AddBlob(sha, r, ChainTimestamped, "project", "project", "timestamp", b)
  }

  /** The new row and its event are all that came: its columns as given, its file there under the digest of the data. */
  predicate BlobKept(sha: Digest, before: Db, after: Db, files: Files, how: ArtifactEvent, subjectType: string,
                     subjectId: string, kind: string, b: Blob) {
    && b.id !in before.tables.artifacts && b.id in after.tables.artifacts
    && var a := after.tables.artifacts[b.id];
    && after.tables == before.tables.(artifacts := before.tables.artifacts[b.id := a])
    && after.log == before.log + [ArtifactLogged(how, a)]
    && a.id == b.id && a.subjectType == subjectType && a.subjectId == subjectId && a.kind == kind
    && a.capturedAt == b.capturedAt && a.captureMeta == b.meta
    && a.sha256 == sha(b.data) && SizedRow(files, after.tables, b.id)
  }

  method RecordBlob(store: ArtifactStore, session: Session, how: ArtifactEvent, subjectType: string, subjectId: string,
                    kind: string, b: Blob)
    returns (ok: bool)
    requires Intact(store.sha, store.files)
    modifies store, session`db
    ensures Intact(store.sha, store.files) && Keeps(old(store.files), store.files)
    ensures store.files == PutFile(store.sha, old(store.files), b.data)
    ensures var before := Record(old(session.db), old(store.files));
      var r := AddBlob(store.sha, before, how, subjectType, subjectId, kind, b);
      && (ok <==> r.Some?)
      && session.db == if ok then r.value.db else old(session.db)
    ensures ok <==> b.id !in old(session.db).tables.artifacts
    ensures ok ==> BlobKept(store.sha, old(session.db), session.db, store.files, how, subjectType, subjectId, kind, b)
  {
    var digest, size := store.Put(b.data, true, b.data);
    ok := session.RecordArtifact(how, Artifact(b.id, subjectType, subjectId, kind, digest, size, b.capturedAt, b.meta));
  }

  /** `attach`: a post that is not there or a kind that is not attachable is refused before anything is stored. */
  method AttachFile(store: ArtifactStore, session: Session, toPost: Option<string>, kind: string, b: Blob)
    returns (ok: bool)
    requires Intact(store.sha, store.files)
    modifies store, session`db
    ensures Intact(store.sha, store.files) && Keeps(old(store.files), store.files)
    ensures var r := Attach(store.sha, Record(old(session.db), old(store.files)), toPost, kind, b);
      && (ok <==> r.Some?)
      && (ok ==> Record(session.db, store.files) == r.value)
      && (!ok ==> session.db == old(session.db))
    ensures (Truthy(toPost) && toPost.value !in old(session.db).tables.posts) || kind !in ATTACHABLE_KINDS ==>
              !ok && store.files == old(store.files)
    ensures ok <==> && (Truthy(toPost) ==> toPost.value in old(session.db).tables.posts)
                    && kind in ATTACHABLE_KINDS && b.id !in old(session.db).tables.artifacts
    ensures ok ==>
              var (subjectType, subjectId) := if Truthy(toPost) then ("post", toPost.value) else ("project", "project");
              BlobKept(store.sha, old(session.db), session.db, store.files, ArtifactAttached, subjectType, subjectId,
                       kind, b)
  {
    var subjectType, subjectId := "project", "project";
    if Truthy(toPost) {
      if toPost.value !in session.db.tables.posts {
        return false;
      }
      subjectType, subjectId := "post", toPost.value;
    }
    if kind !in ATTACHABLE_KINDS {
      return false;
    }
    ok := RecordBlob(store, session, ArtifactAttached, subjectType, subjectId, kind, b);
  }

  method TimestampHead(store: ArtifactStore, session: Session, b: Blob) returns (ok: bool)
    requires Intact(store.sha, store.files)
    modifies store, session`db
    ensures Intact(store.sha, store.files) && Keeps(old(store.files), store.files)
    ensures var r := StampHead(store.sha, Record(old(session.db), old(store.files)), b);
      && (ok <==> r.Some?)
      && (ok ==> Record(session.db, store.files) == r.value)
      && (!ok ==> session.db == old(session.db))
    ensures old(session.db).log == [] ==> ok && session.db == old(session.db) && store.files == old(store.files)
    ensures old(session.db).log != [] ==>
              && (ok <==> b.id !in old(session.db).tables.artifacts)
              && (ok ==> BlobKept(store.sha, old(session.db), session.db, store.files, ChainTimestamped, "project",
                                  "project", "timestamp", b))
  {
    if session.db.log == [] {
      return true;
    }
    ok := RecordBlob(store, session, ChainTimestamped, "project", "project", "timestamp", b);
  }

  /** One line more; an empty one adds nothing. */
  function AddNote(notes: Option<string>, note: Option<string>): Option<string> {
    if !Truthy(note) then notes else if Truthy(notes) then Some(notes.value + "\n" + note.value) else note
  }

  /** `mentions set-status`: the note is kept in the row and in the event. */
  function SetStatus(db: Db, id: string, status: Triage, note: Option<string>): Option<Db> {
    if id !in db.tables.mentions then None
    else
      var m := db.tables.mentions[id];
      var row := m.(status := status, notes := AddNote(m.notes, note));
      Some(Log(db, PutMention(db.tables, row), StatusChanged(id, status, note)))
  }

  /** The notes after one more: nothing given changes nothing, and what was there stays in front. */
  predicate NotesGrow(before: Option<string>, after: Option<string>, note: Option<string>) {
    if note == None || note == Some("") then after == before
    else if before == None || before == Some("") then after == note
    else
      && after.Some? && |after.value| == |before.value| + 1 + |note.value|
      && after.value[..|before.value|] == before.value && after.value[|before.value|] == '\n'
      && after.value[|before.value| + 1..] == note.value
  }

  lemma AddNoteGrows(notes: Option<string>, note: Option<string>)
    ensures NotesGrow(notes, AddNote(notes, note), note)
  {
  }

  /** One mention's status and notes moved, with the event that says so, and nothing else. */
  predicate Triages(before: Db, after: Db, id: string, status: Triage, note: Option<string>) {
    && id in before.tables.mentions && id in after.tables.mentions
    && var m, n := before.tables.mentions[id], after.tables.mentions[id];
    && n == m.(status := status, notes := n.notes) && NotesGrow(m.notes, n.notes, note)
    && after.tables == before.tables.(mentions := before.tables.mentions[id := n])
    && after.log == before.log + [StatusChanged(id, status, note)]
  }

  method SetMentionStatus(session: Session, id: string, status: Triage, note: Option<string>) returns (found: bool)
    requires session.committed == session.db && RowsKeyed(session.db.tables)
    modifies session
    ensures session.committed == session.db == Committed(old(session.db), SetStatus(old(session.db), id, status, note))
    ensures found <==> id in old(session.db.tables.mentions)
    ensures !found ==> session.db == old(session.db)
    ensures found ==> Triages(old(session.db), session.db, id, status, note)
  {
    if id !in session.db.tables.mentions {
      session.Rollback();
      return false;
    }
    var m := session.db.tables.mentions[id];
    AddNoteGrows(m.notes, note);
    m := m.(status := status);
    if Truthy(note) {
      m := m.(notes := if Truthy(m.notes) then Some(m.notes.value + "\n" + note.value) else note);
    }
    session.Update(PutMention(session.db.tables, m), StatusChanged(m.id, status, note));
    session.Commit();
    found := true;
  }

  const TAG_PREFIX := "[auto-tag:"

  function TagLine(tag: string): Option<string> {
    Some(TAG_PREFIX + tag + "]")
  }

  /** The advisory tag of a mention lives in its notes only and is not logged. */
  function Tag(db: Db, id: string, tag: string): Db {
    if id !in db.tables.mentions then db
    else
      var m := db.tables.mentions[id];
      if Truthy(m.notes) && Contains(m.notes.value, TAG_PREFIX) then db
      else db.(tables := PutMention(db.tables, m.(notes := AddNote(m.notes, TagLine(tag)))))
  }

  function Lift(r: Record, db: Option<Db>): Option<Record> {
    match db
    case None => None
    case Some(d) => Some(r.(db := d))
  }

  /** None is an exception before the commit. */
  ghost function Exec(sha: Digest, norm: UrlNorm, r: Record, x: Txn): Option<Record> {
    match x
    case Dedupe(arrivals) => Lift(r, AbsorbAll(norm, r.db, arrivals))
    case Visited(id, url, visit) => Settle(sha, r, id, url, visit)
    case Posted(post) => Lift(r, AddPost(r.db, post))
    case PostCaptured(id, url, e) => StoreEvidence(sha, r, Subject("post", id), url, e)
    case Answered(id, ref, answer, at) => Some(r.(db := RecordAttempt(r.db, id, ref, answer, at).0))
    case FoundHistory(id, provider, url, found, rows) =>
      if |rows| != |found| then None
      else Lift(r, History(r.db, KnownUrls(r.db, id), Subject("post", id), provider, url, found, rows))
    case Attached(toPost, kind, b) => Attach(sha, r, toPost, kind, b)
    case Stamped(b) => StampHead(sha, r, b)
    case Triaged(id, status, note) => Lift(r, SetStatus(r.db, id, status, note))
    case Tagged(id, tag) => Some(r.(db := Tag(r.db, id, tag)))
    case Exported(path, manifest, files, timestamp) =>
      Some(r.(db := Log(r.db, r.db.tables, ExportCreated(path, manifest, files, timestamp))))
  }

  /** What a transaction puts into the store, in order. */
  function Data(x: Txn): seq<Bytes> {
    match x
    case Visited(_, _, Fetched(e)) => [e.capture.png, e.capture.pdf, e.capture.html]
    case PostCaptured(_, _, e) => [e.capture.png, e.capture.pdf, e.capture.html]
    case Attached(_, _, b) => [b.data]
    case Stamped(b) => [b.data]
    case _ => []
  }

  function PutFirst(sha: Digest, files: Files, data: seq<Bytes>, n: nat): Files
    decreases n
  {
    if n == 0 || data == [] then files else PutFirst(sha, PutFile(sha, files, data[0]), data[1..], n - 1)
  }

  /** A transaction and its fate: it reaches its commit, or it dies after some puts. */
  datatype Move = Move(txn: Txn, commits: bool, puts: nat)

  ghost function Step(sha: Digest, norm: UrlNorm, r: Record, m: Move): Record {
    var s := Exec(sha, norm, r, m.txn);
    if m.commits && s.Some? then s.value else r.(files := PutFirst(sha, r.files, Data(m.txn), m.puts))
  }

  ghost function Run(sha: Digest, norm: UrlNorm, moves: seq<Move>): Record {
    if moves == [] then Record(EMPTY, map[])
    else Step(sha, norm, Run(sha, norm, moves[..|moves| - 1]), moves[|moves| - 1])
  }

  // ----- The log replays -----

  lemma SetStatusFaithful(db: Db, id: string, status: Triage, note: Option<string>)
    requires Faithful(db) && id in db.tables.mentions
    ensures Faithful(SetStatus(db, id, status, note).value)
  {
    var d := SetStatus(db, id, status, note).value;
    LogMention(db, d.tables.mentions[id], StatusChanged(id, status, note));
  }

  lemma TagFaithful(db: Db, id: string, tag: string)
    requires Faithful(db)
    ensures Faithful(Tag(db, id, tag))
  {
    if id in db.tables.mentions {
      UnloggedMention(db, Tag(db, id, tag).tables.mentions[id]);
    }
  }

  lemma ExportFaithful(db: Db, path: string, manifest: string, files: nat, timestamp: Option<Dict>)
    requires Faithful(db)
    ensures Faithful(Log(db, db.tables, ExportCreated(path, manifest, files, timestamp)))
  {
    ReplayLog(db, db.tables, ExportCreated(path, manifest, files, timestamp));
  }

  lemma ExecFaithful(sha: Digest, norm: UrlNorm, r: Record, x: Txn)
    requires Faithful(r.db)
    ensures var s := Exec(sha, norm, r, x); s.Some? ==> Faithful(s.value.db)
  {
    hide Faithful, StoreEvidence, Settle, AddPost, AddArtifact, AbsorbAll, History, RecordAttempt, Tag;
    match x
    case Dedupe(arrivals) => AbsorbAllFaithful(norm, r.db, arrivals);
    case Visited(id, url, visit) => SettleFaithful(sha, r, id, url, visit);
    case Posted(post) => AddsFaithful(r.db);
    case PostCaptured(id, url, e) => StoreEvidenceFaithful(sha, r, Subject("post", id), url, e);
    case Answered(id, ref, answer, at) => RecordAttemptFaithful(r.db, id, ref, answer, at);
    case FoundHistory(id, provider, url, found, rows) =>
      if |rows| == |found| {
        HistoryFaithful(r.db, KnownUrls(r.db, id), Subject("post", id), provider, url, found, rows);
      }
    case Attached(_, _, _) => AddsFaithful(r.db);
    case Stamped(_) => AddsFaithful(r.db);
    case Triaged(id, status, note) =>
      if id in r.db.tables.mentions {
        SetStatusFaithful(r.db, id, status, note);
      }
    case Tagged(id, tag) => TagFaithful(r.db, id, tag);
    case Exported(path, manifest, files, timestamp) => ExportFaithful(r.db, path, manifest, files, timestamp);
  }

  lemma EmptyFaithful()
    ensures Faithful(EMPTY)
  {
    assert Visible(EMPTY.tables) == EMPTY.tables;
  }

  /**
   After any run of transactions, with crashes and rollbacks anywhere, folding the
   log from empty gives the tables, up to the three columns no event carries.
   */
  lemma {:induction false} LogReplays(sha: Digest, norm: UrlNorm, moves: seq<Move>)
    ensures Faithful(Run(sha, norm, moves).db)
  {
    if moves == [] {
      EmptyFaithful();
    } else {
      LogReplays(sha, norm, moves[..|moves| - 1]);
      ExecFaithful(sha, norm, Run(sha, norm, moves[..|moves| - 1]), moves[|moves| - 1].txn);
    }
  }
}
