/**
 The push path: a post is recorded in one transaction and captured in a second, and
 a later call of the same URL finishes what an interrupted one left.
 */
module Hook {
  import opened Wrappers
  import opened Database
  import opened Sessions
  import opened Store
  import opened CapturePipeline
  import opened EvidenceRows

  const PLATFORMS := ["linkedin", "threads", "x", "other"]
  const LANGUAGES := ["en", "uk", "ru"]

  predicate IsPost(db: Db, id: string, url: string) {
    id in db.tables.posts && db.tables.posts[id].url == url
  }

  /** Posts are stored under their ids; url is unique. */
  ghost predicate PostsKeyed(db: Db) {
    && (forall id <- db.tables.posts :: db.tables.posts[id].id == id)
    && forall i, j, url :: IsPost(db, i, url) && IsPost(db, j, url) ==> i == j
  }

  /** SELECT ... WHERE url = :url. */
  ghost function FindPost(db: Db, url: string): (r: Option<string>)
    ensures r.Some? ==> IsPost(db, r.value, url)
    ensures r.None? ==> forall id :: !IsPost(db, id, url)
  {
    if exists id :: IsPost(db, id, url) then
      var id :| IsPost(db, id, url);
      Some(id)
    else None
  }

  /** How the first transaction ends. */
  datatype Start = Conflict | Duplicate(postId: string) | Begun(postId: string, created: bool)

  /** The first transaction: `post` is the row a new URL gets. */
  ghost function Begin(db: Db, post: Post, capture: bool): (Db, Start) {
    match FindPost(db, post.url)
    case Some(id) =>
      if ArtifactRows(db.tables, Subject("post", id)) != {} || !capture then (db, Duplicate(id))
      else (db, Begun(id, false))
    case None =>
      match AddPost(db, post)
      case None => (db, Conflict)
      case Some(d) => (d, Begun(post.id, true))
  }

  /** A call resumes exactly when capture is asked for and the post has no artifact of any kind. */
  lemma ResumeExact(db: Db, post: Post, capture: bool, id: string)
    requires PostsKeyed(db) && IsPost(db, id, post.url)
    ensures var resumes := capture && ArtifactRows(db.tables, Subject("post", id)) == {};
      Begin(db, post, capture) == (db, if resumes then Begun(id, false) else Duplicate(id))
  {
    assert FindPost(db, post.url) == Some(id);
  }

  /** How a whole call ends. */
  datatype Ending =
    | Invalid
    | Stopped(start: Start)
    | Recorded(postId: string, created: bool)
    | CaptureThrew
    | StoreRefused
    | Done(postId: string, created: bool, hashes: map<string, string>, status: SnapshotStatus)

  predicate ValidPost(p: Post) {
    p.platform in PLATFORMS && p.language in LANGUAGES
  }

  function Hashes(sha: Digest, c: Capture): map<string, string> {
    map[KINDS[0] := sha(c.png), KINDS[1] := sha(c.pdf), KINDS[2] := sha(c.html)]
  }

  /** One call with no crash; `result` None is a capture that threw. */
  ghost function Ingest(sha: Digest, r: Record, post: Post, capture: bool, result: Option<Evidence>): (Record, Ending) {
    if !ValidPost(post) then (r, Invalid)
    else
      var (db, start) := Begin(r.db, post, capture);
      var s := r.(db := db);
      if !start.Begun? then (s, Stopped(start))
      else if !capture then (s, Recorded(start.postId, start.created))
      else
        match result
        case None => (s, CaptureThrew)
        case Some(e) =>
          match StoreEvidence(sha, s, Subject("post", start.postId), post.url, e)
          case None => (s, StoreRefused)
          case Some(t) =>
            var status := RequestRow(Subject("post", start.postId), post.url, e).status;
            (t, Done(start.postId, start.created, Hashes(sha, e.capture), status))
  }

  // ----- What a call owes its post -----

  /** Some post has this URL. */
  ghost predicate HasPost(db: Db, url: string) {
    exists id :: IsPost(db, id, url)
  }

  /** The post of this URL is in the tables: put there with its event, or found there without artifacts. */
  ghost predicate Entered(before: Db, after: Db, post: Post, id: string, created: bool) {
    && IsPost(after, id, post.url)
    && (created <==> !HasPost(before, post.url))
    && (created ==>
          && id == post.id && id !in before.tables.posts
          && after.tables == before.tables.(posts := before.tables.posts[id := post])
          && after.log == before.log + [PostCreated(post)])
    && (!created ==> after == before && ArtifactRows(before.tables, Subject("post", id)) == {})
  }

  /** Another post has the row's id, or its external id on the same platform. */
  ghost predicate Clashes(t: Tables, post: Post) {
    || post.id in t.posts
    || (post.externalId.Some?
        && exists id ::
             id in t.posts && t.posts[id].platform == post.platform && t.posts[id].externalId == post.externalId)
  }

  /** How the first transaction ends, by what it found. */
  ghost predicate BeginEnds(before: Db, after: Db, post: Post, capture: bool, start: Start) {
    match start
    case Conflict => after == before && !HasPost(before, post.url) && Clashes(before.tables, post)
    case Duplicate(id) =>
      && after == before && IsPost(before, id, post.url)
      && (!capture || ArtifactRows(before.tables, Subject("post", id)) != {})
    case Begun(id, created) => Entered(before, after, post, id, created) && (created || capture)
  }

  lemma NoPost(db: Db, post: Post)
    requires !HasPost(db, post.url)
    ensures AddPost(db, post).None? <==> Clashes(db.tables, post)
  {
    forall id | id in db.tables.posts ensures db.tables.posts[id].url != post.url {
      assert !IsPost(db, id, post.url);
    }
  }

  lemma BeginExact(db: Db, post: Post, capture: bool)
    ensures var (d, start) := Begin(db, post, capture); BeginEnds(db, d, post, capture, start)
  {
    hide ArtifactRows;
    if FindPost(db, post.url).Some? {
      assert IsPost(db, FindPost(db, post.url).value, post.url);
    } else {
      NoPost(db, post);
      if AddPost(db, post).Some? {
        assert IsPost(AddPost(db, post).value, post.id, post.url);
      }
    }
  }

  predicate SameOf(t: Tables, u: Tables, who: Subject) {
    ArtifactRows(u, who) == ArtifactRows(t, who) && RequestRows(u, who) == RequestRows(t, who)
  }

  /** The post's evidence is what was drawn, and no other subject's rows changed. */
  ghost predicate Stored(sha: Digest, t: Tables, u: Tables, who: Subject, url: string, e: Evidence) {
    && Carries(sha, u, who, url, e) && KeepsArtifacts(t, u) && u.mentions == t.mentions
    && ArtifactRows(u, who) == ArtifactRows(t, who) + Ids(e)
    && RequestRows(u, who) == RequestRows(t, who) + {e.snapshotId}
    && forall other :: other != who ==> SameOf(t, u, other)
  }

  lemma StoredExact(sha: Digest, r: Record, who: Subject, url: string, e: Evidence)
    requires StoreEvidence(sha, r, who, url, e).Some?
    ensures var u := StoreEvidence(sha, r, who, url, e).value.db.tables;
      Stored(sha, r.db.tables, u, who, url, e) && u.posts == r.db.tables.posts
  {
    hide StoreEvidence, Carries, ArtifactRows, CaptureRows, RequestRows, KeepsArtifacts;
    StoreEvidenceRows(sha, r, who, url, e);
    var u := StoreEvidence(sha, r, who, url, e).value.db.tables;
    forall other ensures other != who ==> SameOf(r.db.tables, u, other) {
      StoreEvidenceExact(sha, r, who, url, e, other);
    }
    StoreEvidenceExact(sha, r, who, url, e, who);
  }

  /** What is reported of a stored capture is what its rows say. */
  predicate Reported(u: Tables, e: Evidence, hashes: map<string, string>, status: SnapshotStatus) {
    && hashes.Keys == {"screenshot_png", "pdf", "html"}
    && (forall id <- e.artifactIds ::
          id in u.artifacts && u.artifacts[id].kind in hashes && hashes[u.artifacts[id].kind] == u.artifacts[id].sha256)
    && e.snapshotId in u.snapshots && u.snapshots[e.snapshotId].status == status
  }

  lemma ReportedExact(sha: Digest, u: Tables, who: Subject, url: string, e: Evidence)
    requires Carries(sha, u, who, url, e)
    ensures Reported(u, e, Hashes(sha, e.capture), RequestRow(who, url, e).status)
  {
  }

  /** The posts with this one entered. */
  ghost predicate PostsWith(before: Db, t: Tables, post: Post, id: string, created: bool) {
    && id in t.posts && t.posts[id].url == post.url
    && (created <==> !HasPost(before, post.url))
    && t.posts == (if created then before.tables.posts[post.id := post] else before.tables.posts)
    && (if created then id == post.id && id !in before.tables.posts
        else ArtifactRows(before.tables, Subject("post", id)) == {})
  }

  /** How a call ends, by what it was asked and what it left in the tables. */
  ghost predicate IngestEnds(sha: Digest, before: Db, after: Db, post: Post, capture: bool, result: Option<Evidence>,
                             ending: Ending) {
    && (ending == Invalid <==> post.platform !in PLATFORMS || post.language !in LANGUAGES)
    && match ending
       case Invalid => after == before
       case Stopped(start) => !start.Begun? && BeginEnds(before, after, post, capture, start)
       case Recorded(id, created) => !capture && created && Entered(before, after, post, id, created)
       case CaptureThrew => capture && result.None? && exists id, created :: Entered(before, after, post, id, created)
       case StoreRefused =>
         && capture && result.Some? && !Fresh(before.tables, result.value)
         && exists id, created :: Entered(before, after, post, id, created)
       case Done(id, created, hashes, status) =>
         && capture && result.Some?
         && PostsWith(before, after.tables, post, id, created)
         && Stored(sha, before.tables, after.tables, Subject("post", id), post.url, result.value)
         && Reported(after.tables, result.value, hashes, status)
  }

  lemma EnteredRows(before: Db, after: Db, post: Post, id: string, created: bool)
    requires Entered(before, after, post, id, created)
    ensures PostsWith(before, after.tables, post, id, created)
    ensures after.tables == before.tables.(posts := after.tables.posts)
  {
    hide ArtifactRows;
  }

  lemma SameRowsStored(sha: Digest, s: Tables, t: Tables, u: Tables, who: Subject, url: string, e: Evidence)
    requires t == s.(posts := t.posts) && Stored(sha, t, u, who, url, e)
    ensures Stored(sha, s, u, who, url, e)
  {
    hide Carries;
    assert forall other :: ArtifactRows(s, other) == ArtifactRows(t, other);
    assert forall other :: RequestRows(s, other) == RequestRows(t, other);
    forall other | other != who ensures SameOf(s, u, other) {
      assert SameOf(t, u, other);
    }
  }

  lemma StoredCarries(sha: Digest, t: Tables, u: Tables, who: Subject, url: string, e: Evidence)
    requires Stored(sha, t, u, who, url, e)
    ensures Carries(sha, u, who, url, e)
  {
  }

  lemma PostsStay(before: Db, t: Tables, u: Tables, post: Post, id: string, created: bool)
    requires PostsWith(before, t, post, id, created) && u.posts == t.posts
    ensures PostsWith(before, u, post, id, created)
  {
  }

  /** Every call, whatever the tables hold when it begins. */
  lemma IngestExact(sha: Digest, r: Record, post: Post, capture: bool, result: Option<Evidence>)
    ensures var (s, ending) := Ingest(sha, r, post, capture, result);
      IngestEnds(sha, r.db, s.db, post, capture, result, ending)
  {
    hide Begin, StoreEvidence, Stored, Reported, PostsWith, Entered, Clashes, HasPost, ArtifactRows, Hashes, RequestRow;
    var (db, start) := Begin(r.db, post, capture);
    BeginExact(r.db, post, capture);
    if ValidPost(post) && start.Begun? {
      EnteredRows(r.db, db, post, start.postId, start.created);
      if capture && result.Some? {
        var who, e := Subject("post", start.postId), result.value;
        StoreEvidenceFresh(sha, r.(db := db), who, post.url, e);
        if StoreEvidence(sha, r.(db := db), who, post.url, e).Some? {
          var u := StoreEvidence(sha, r.(db := db), who, post.url, e).value.db.tables;
          StoredExact(sha, r.(db := db), who, post.url, e);
          SameRowsStored(sha, r.db.tables, db.tables, u, who, post.url, e);
          StoredCarries(sha, r.db.tables, u, who, post.url, e);
          ReportedExact(sha, u, who, post.url, e);
          PostsStay(r.db, db.tables, u, post, start.postId, start.created);
        } else {
          assert Entered(r.db, db, post, start.postId, start.created);
        }
      }
    }
  }

  method BeginIngest(session: Session, post: Post, capture: bool) returns (start: Start)
    requires PostsKeyed(session.db) && session.committed == session.db
    modifies session
    ensures (session.db, start) == Begin(old(session.db), post, capture) && session.committed == session.db
    ensures BeginEnds(old(session.db), session.db, post, capture, start)
  {
    BeginExact(session.db, post, capture);
    hide BeginEnds;
    var posts := session.db.tables.posts;
    if exists id :: id in posts && posts[id].url == post.url {
      var id :| id in posts && posts[id].url == post.url;
      assert IsPost(session.db, id, post.url);
      ResumeExact(session.db, post, capture, id);
      var captured := |ArtifactRows(session.db.tables, Subject("post", id))|;
      if captured != 0 || !capture {
        session.Rollback();
        return Duplicate(id);
      }
      start := Begun(id, false);
    } else {
      assert forall id :: !IsPost(session.db, id, post.url);
      var ok := session.RecordPost(post);
      if !ok {
        session.Rollback();
        return Conflict;
      }
      start := Begun(post.id, true);
    }
    session.Commit();
  }

  method CaptureForPost(store: ArtifactStore, session: Session, postId: string, created: bool, url: string, e: Evidence)
    returns (ending: Ending)
    requires session.committed == session.db && Intact(store.sha, store.files)
    modifies store, session
    ensures Intact(store.sha, store.files) && Keeps(old(store.files), store.files)
    ensures var who := Subject("post", postId);
      var r := StoreEvidence(store.sha, Record(old(session.db), old(store.files)), who, url, e);
      && session.committed == session.db
      && (r.None? ==> ending == StoreRefused && session.db == old(session.db))
      && (r.Some? ==> Record(session.db, store.files) == r.value
                      && ending == Done(postId, created, Hashes(store.sha, e.capture), RequestRow(who, url, e).status))
  {
    var who := Subject("post", postId);
    var ok := StoreArtifacts(store, session, who, e.capture, e.artifactIds);
    if ok {
      ok := SubmitArchive(session, e.snapshotId, who, e.provider, url, e.at, e.confirmedAt, e.answer);
    }
    session.Close(ok);
    if ok {
      ending := Done(postId, created, Hashes(store.sha, e.capture), RequestRow(who, url, e).status);
    } else {
      ending := StoreRefused;
    }
  }

  /** The whole call; a refused second transaction leaves its blobs in the store and nothing else. */
  method IngestPost(store: ArtifactStore, session: Session, post: Post, capture: bool, result: Option<Evidence>)
    returns (ending: Ending)
    requires PostsKeyed(session.db) && session.committed == session.db && Intact(store.sha, store.files)
    modifies store, session
    ensures Intact(store.sha, store.files) && Keeps(old(store.files), store.files)
    ensures var (r, e) := Ingest(store.sha, Record(old(session.db), old(store.files)), post, capture, result);
      && ending == e && session.db == r.db && session.committed == session.db
      && (ending != StoreRefused ==> store.files == r.files)
    ensures IngestEnds(store.sha, old(session.db), session.db, post, capture, result, ending)
  {
    IngestExact(store.sha, Record(session.db, store.files), post, capture, result);
    hide IngestEnds;
    if post.platform !in PLATFORMS || post.language !in LANGUAGES {
      return Invalid;
    }
    var start := BeginIngest(session, post, capture);
    if !start.Begun? {
      return Stopped(start);
    }
    if !capture {
      return Recorded(start.postId, start.created);
    }
    match result {
      case None => return CaptureThrew;
      case Some(e) =>
        ending := CaptureForPost(store, session, start.postId, start.created, post.url, e);
    }
  }
}
