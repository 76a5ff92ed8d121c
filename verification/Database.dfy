/**
 The tables of the record, the events logged about them, and replay: what folding
 the log from empty rebuilds. Stamps the program writes itself are held as instants
 (module Clock shows that comparing the texts compares these).
 */
module Database {
  import opened Json
  import opened Wrappers
  import opened Clock

  /** A dict column, held with its keys sorted so that equal dicts are equal values. */
  type Dict = j: Json | j.Obj? && IsDict(j) && Norm(j) == j witness Obj([])

  datatype Post = Post(
    id: string, platform: string, externalId: Option<string>, url: string, body: string, language: string,
    publishedAt: string, ingestedAt: Time, brandMentioned: bool, sourcePath: string)

  datatype Triage = New | Reviewed | Actioned | Ignored

  datatype CaptureState = Pending | Captured | Skipped | Failed

  datatype Mention = Mention(
    id: string, source: string, url: string, title: string, excerpt: string, author: Option<string>,
    publishedAt: Option<string>, discoveredAt: Time, matchedTerms: seq<string>, status: Triage,
    notes: Option<string>, captureState: CaptureState, captureAttempts: nat)

  datatype Artifact = Artifact(
    id: string, subjectType: string, subjectId: string, kind: string, sha256: string, bytes: nat,
    capturedAt: string, captureMeta: Dict)

  datatype SnapshotStatus = Awaiting | Confirmed | GaveUp | Historical

  datatype Snapshot = Snapshot(
    id: string, subjectType: string, subjectId: string, provider: string, requestUrl: string,
    providerRef: Option<string>, snapshotUrl: Option<string>, status: SnapshotStatus,
    submittedAt: Time, confirmedAt: Option<Time>, attempts: nat)

  datatype Tables = Tables(
    posts: map<string, Post>,
    mentions: map<string, Mention>,
    artifacts: map<string, Artifact>,
    snapshots: map<string, Snapshot>)

  datatype ArtifactEvent = ArtifactCreated | ArtifactAttached | ChainTimestamped

  datatype SnapshotEvent = SnapshotSubmitted | SnapshotHistorical | SnapshotConfirmed | SnapshotFailed

  /** One entry of the log before it is hashed. */
  datatype Event =
    | PostCreated(post: Post)
    | ArtifactLogged(how: ArtifactEvent, artifact: Artifact)
    | MentionCreated(mention: Mention)
    | TermsUpdated(mentionId: string, terms: seq<string>, source: string)
    | StatusChanged(mentionId: string, status: Triage, note: Option<string>)
    | CaptureStateChanged(mentionId: string, state: CaptureState, captureAttempts: nat)
    | SnapshotLogged(what: SnapshotEvent, snapshot: Snapshot)
    | SnapshotAttempted(snapshotId: string, attempts: nat)
    | ExportCreated(path: string, manifestSha256: string, files: nat, timestamp: Option<Dict>)

  datatype Db = Db(tables: Tables, log: seq<Event>)

  const EMPTY := Db(Tables(map[], map[], map[], map[]), [])

  // ----- What the log says about the tables -----

  /** A mention without the columns no event carries while they still change. */
  function VisibleMention(m: Mention): Mention {
    m.(notes := None, captureAttempts := 0)
  }

  /** A snapshot without the job id that a pending one may still replace. */
  function VisibleSnapshot(s: Snapshot): Snapshot {
    if s.status == Awaiting then s.(providerRef := None) else s
  }

  function Visible(t: Tables): Tables {
    Tables(
      t.posts,
      map id | id in t.mentions :: VisibleMention(t.mentions[id]),
      t.artifacts,
      map id | id in t.snapshots :: VisibleSnapshot(t.snapshots[id]))
  }

  function PutMention(t: Tables, m: Mention): Tables {
    t.(mentions := t.mentions[m.id := m])
  }

  function PutSnapshot(t: Tables, s: Snapshot): Tables {
    t.(snapshots := t.snapshots[s.id := s])
  }

  function PutArtifact(t: Tables, a: Artifact): Tables {
    t.(artifacts := t.artifacts[a.id := a])
  }

  function PutPost(t: Tables, p: Post): Tables {
    t.(posts := t.posts[p.id := p])
  }

  /** One event read back into the tables. */
  function Apply(t: Tables, e: Event): Tables {
    match e
    case PostCreated(p) => PutPost(t, p)
    case ArtifactLogged(_, a) => PutArtifact(t, a)
    case MentionCreated(m) => PutMention(t, VisibleMention(m))
    case TermsUpdated(id, terms, _) =>
      if id in t.mentions then PutMention(t, t.mentions[id].(matchedTerms := terms)) else t
    case StatusChanged(id, status, _) =>
      if id in t.mentions then PutMention(t, t.mentions[id].(status := status)) else t
    case CaptureStateChanged(id, state, _) =>
      if id in t.mentions then PutMention(t, t.mentions[id].(captureState := state)) else t
    case SnapshotLogged(_, s) => PutSnapshot(t, VisibleSnapshot(s))
    case SnapshotAttempted(id, attempts) =>
      if id in t.snapshots then PutSnapshot(t, t.snapshots[id].(attempts := attempts)) else t
    case ExportCreated(_, _, _, _) => t
  }

  function Replay(log: seq<Event>): Tables {
    if log == [] then EMPTY.tables else Apply(Replay(log[..|log| - 1]), log[|log| - 1])
  }

  /** Rows are stored under their ids. */
  predicate RowsKeyed(t: Tables) {
    && (forall id <- t.mentions :: t.mentions[id].id == id)
    && (forall id <- t.snapshots :: t.snapshots[id].id == id)
  }

  /** The log rebuilds what it says it rebuilds. */
  predicate Faithful(db: Db) {
    RowsKeyed(db.tables) && Replay(db.log) == Visible(db.tables)
  }

  // ----- Logged and unlogged writes -----

  function Log(db: Db, t: Tables, e: Event): Db {
    Db(t, db.log + [e])
  }

  lemma ReplayLog(db: Db, t: Tables, e: Event)
    ensures Replay(Log(db, t, e).log) == Apply(Replay(db.log), e)
  {
    assert Log(db, t, e).log[..|db.log|] == db.log;
  }

  lemma VisiblePutMention(t: Tables, m: Mention)
    ensures Visible(PutMention(t, m)) == PutMention(Visible(t), VisibleMention(m))
  {
    assert Visible(PutMention(t, m)).mentions == PutMention(Visible(t), VisibleMention(m)).mentions;
  }

  lemma VisiblePutSnapshot(t: Tables, s: Snapshot)
    ensures Visible(PutSnapshot(t, s)) == PutSnapshot(Visible(t), VisibleSnapshot(s))
  {
    assert Visible(PutSnapshot(t, s)).snapshots == PutSnapshot(Visible(t), VisibleSnapshot(s)).snapshots;
  }

  /** A mention row that comes or changes together with its event. */
  lemma LogMention(db: Db, m: Mention, e: Event)
    requires Faithful(db)
    requires match e
      case MentionCreated(n) => n == m
      case TermsUpdated(id, terms, _) =>
        id == m.id && id in db.tables.mentions
        && VisibleMention(m) == VisibleMention(db.tables.mentions[id]).(matchedTerms := terms)
      case StatusChanged(id, status, _) =>
        id == m.id && id in db.tables.mentions
        && VisibleMention(m) == VisibleMention(db.tables.mentions[id]).(status := status)
      case CaptureStateChanged(id, state, _) =>
        id == m.id && id in db.tables.mentions
        && VisibleMention(m) == VisibleMention(db.tables.mentions[id]).(captureState := state)
      case _ => false
    ensures Faithful(Log(db, PutMention(db.tables, m), e))
  {
    ReplayLog(db, PutMention(db.tables, m), e);
    VisiblePutMention(db.tables, m);
  }

  /** A snapshot row that comes or changes together with its event. */
  lemma LogSnapshot(db: Db, s: Snapshot, e: Event)
    requires Faithful(db)
    requires match e
      case SnapshotLogged(_, n) => n == s
      case SnapshotAttempted(id, attempts) =>
        id == s.id && id in db.tables.snapshots
        && VisibleSnapshot(s) == VisibleSnapshot(db.tables.snapshots[id]).(attempts := attempts)
      case _ => false
    ensures Faithful(Log(db, PutSnapshot(db.tables, s), e))
  {
    ReplayLog(db, PutSnapshot(db.tables, s), e);
    VisiblePutSnapshot(db.tables, s);
  }

  lemma LogArtifact(db: Db, a: Artifact, how: ArtifactEvent)
    requires Faithful(db)
    ensures Faithful(Log(db, PutArtifact(db.tables, a), ArtifactLogged(how, a)))
  {
    ReplayLog(db, PutArtifact(db.tables, a), ArtifactLogged(how, a));
  }

  lemma LogPost(db: Db, p: Post)
    requires Faithful(db)
    ensures Faithful(Log(db, PutPost(db.tables, p), PostCreated(p)))
  {
    ReplayLog(db, PutPost(db.tables, p), PostCreated(p));
  }

  /** A change confined to the columns no event carries needs no event. */
  lemma UnloggedMention(db: Db, m: Mention)
    requires Faithful(db) && m.id in db.tables.mentions
    requires VisibleMention(m) == VisibleMention(db.tables.mentions[m.id])
    ensures Faithful(db.(tables := PutMention(db.tables, m)))
  {
    VisiblePutMention(db.tables, m);
    assert PutMention(Visible(db.tables), VisibleMention(m)).mentions == Visible(db.tables).mentions;
  }
}
