/**
 How events are written into the log: their types and JSON payloads, and that both
 together give the event back.
 */
module Payloads {
  import opened Text
  import opened Json
  import opened Wrappers
  import opened Clock
  import opened Database

  function OptStr(s: Option<string>): Json {
    match s
    case Some(t) => Str(t)
    case None => Null
  }

  ghost function OptTime(t: Option<Time>): Json {
    match t
    case Some(u) => Str(StampOf(u))
    case None => Null
  }

  function Strings(ss: seq<string>): Json {
    Arr(seq(|ss|, i requires 0 <= i < |ss| => Str(ss[i])))
  }

  function TriageName(s: Triage): string {
    match s
    case New => "new"
    case Reviewed => "reviewed"
    case Actioned => "actioned"
    case Ignored => "ignored"
  }

  function CaptureName(s: CaptureState): string {
    match s
    case Pending => "pending"
    case Captured => "captured"
    case Skipped => "skipped"
    case Failed => "failed"
  }

  function StatusName(s: SnapshotStatus): string {
    match s
    case Awaiting => "pending"
    case Confirmed => "confirmed"
    case GaveUp => "failed"
    case Historical => "historical"
  }

  // ----- Rows as payloads: every column, in the order of the model -----

  const POST_KEYS := ["id", "platform", "external_id", "url", "body", "language", "published_at", "ingested_at",
                      "brand_mentioned", "source_path"]

  ghost function PostValue(p: Post, i: nat): Json {
    if i == 0 then Str(p.id)
    else if i == 1 then Str(p.platform)
    else if i == 2 then OptStr(p.externalId)
    else if i == 3 then Str(p.url)
    else if i == 4 then Str(p.body)
    else if i == 5 then Str(p.language)
    else if i == 6 then Str(p.publishedAt)
    else if i == 7 then Str(StampOf(p.ingestedAt))
    else if i == 8 then Bool(p.brandMentioned)
    else Str(p.sourcePath)
  }

  const MENTION_KEYS := ["id", "source", "url", "title", "excerpt", "author", "published_at", "discovered_at",
                         "matched_terms", "status", "notes", "capture_state", "capture_attempts"]

  ghost function MentionValue(m: Mention, i: nat): Json {
    if i == 0 then Str(m.id)
    else if i == 1 then Str(m.source)
    else if i == 2 then Str(m.url)
    else if i == 3 then Str(m.title)
    else if i == 4 then Str(m.excerpt)
    else if i == 5 then OptStr(m.author)
    else if i == 6 then OptStr(m.publishedAt)
    else if i == 7 then Str(StampOf(m.discoveredAt))
    else if i == 8 then Strings(m.matchedTerms)
    else if i == 9 then Str(TriageName(m.status))
    else if i == 10 then OptStr(m.notes)
    else if i == 11 then Str(CaptureName(m.captureState))
    else Num(m.captureAttempts)
  }

  const ARTIFACT_KEYS := ["id", "subject_type", "subject_id", "kind", "sha256", "bytes", "captured_at", "capture_meta"]

  function ArtifactValue(a: Artifact, i: nat): Json {
    if i == 0 then Str(a.id)
    else if i == 1 then Str(a.subjectType)
    else if i == 2 then Str(a.subjectId)
    else if i == 3 then Str(a.kind)
    else if i == 4 then Str(a.sha256)
    else if i == 5 then Num(a.bytes)
    else if i == 6 then Str(a.capturedAt)
    else a.captureMeta
  }

  const SNAPSHOT_KEYS := ["id", "subject_type", "subject_id", "provider", "request_url", "provider_ref", "snapshot_url",
                          "status", "submitted_at", "confirmed_at", "attempts"]

  ghost function SnapshotValue(s: Snapshot, i: nat): Json {
    if i == 0 then Str(s.id)
    else if i == 1 then Str(s.subjectType)
    else if i == 2 then Str(s.subjectId)
    else if i == 3 then Str(s.provider)
    else if i == 4 then Str(s.requestUrl)
    else if i == 5 then OptStr(s.providerRef)
    else if i == 6 then OptStr(s.snapshotUrl)
    else if i == 7 then Str(StatusName(s.status))
    else if i == 8 then Str(StampOf(s.submittedAt))
    else if i == 9 then OptTime(s.confirmedAt)
    else Num(s.attempts)
  }

  function OptDict(d: Option<Dict>): Json {
    match d
    case Some(j) => j
    case None => Null
  }

  function KeysOf(e: Event): seq<string> {
    match e
    case PostCreated(_) => POST_KEYS
    case ArtifactLogged(_, _) => ARTIFACT_KEYS
    case MentionCreated(_) => MENTION_KEYS
    case TermsUpdated(_, _, _) => ["id", "matched_terms", "source"]
    case StatusChanged(_, _, _) => ["id", "status", "note"]
    case CaptureStateChanged(_, _, _) => ["id", "capture_state", "capture_attempts"]
    case SnapshotLogged(_, _) => SNAPSHOT_KEYS
    case SnapshotAttempted(_, _) => ["id", "attempts"]
    case ExportCreated(_, _, _, _) => ["path", "manifest_sha256", "files", "timestamp"]
  }

  /** The value of column i. */
  ghost function ValueOf(e: Event, i: nat): Json {
    match e
    case PostCreated(p) => PostValue(p, i)
    case ArtifactLogged(_, a) => ArtifactValue(a, i)
    case MentionCreated(m) => MentionValue(m, i)
    case TermsUpdated(id, terms, source) => if i == 0 then Str(id) else if i == 1 then Strings(terms) else Str(source)
    case StatusChanged(id, status, note) =>
      if i == 0 then Str(id) else if i == 1 then Str(TriageName(status)) else OptStr(note)
    case CaptureStateChanged(id, state, attempts) =>
      if i == 0 then Str(id) else if i == 1 then Str(CaptureName(state)) else Num(attempts)
    case SnapshotLogged(_, s) => SnapshotValue(s, i)
    case SnapshotAttempted(id, attempts) => if i == 0 then Str(id) else Num(attempts)
    case ExportCreated(path, manifest, files, timestamp) =>
      if i == 0 then Str(path) else if i == 1 then Str(manifest) else if i == 2 then Num(files) else OptDict(timestamp)
  }

  ghost function PayloadOf(e: Event): Json {
    Obj(seq(|KeysOf(e)|, i requires 0 <= i < |KeysOf(e)| => Member(KeysOf(e)[i], ValueOf(e, i))))
  }

  function TypeOf(e: Event): string {
    match e
    case PostCreated(_) => "post.created"
    case ArtifactLogged(ArtifactCreated, _) => "artifact.created"
    case ArtifactLogged(ArtifactAttached, _) => "artifact.attached"
    case ArtifactLogged(ChainTimestamped, _) => "chain.timestamped"
    case MentionCreated(_) => "mention.created"
    case TermsUpdated(_, _, _) => "mention.terms_updated"
    case StatusChanged(_, _, _) => "mention.status_changed"
    case CaptureStateChanged(_, _, _) => "mention.capture_state"
    case SnapshotLogged(SnapshotSubmitted, _) => "archive_snapshot.submitted"
    case SnapshotLogged(SnapshotHistorical, _) => "archive_snapshot.historical"
    case SnapshotLogged(SnapshotConfirmed, _) => "archive_snapshot.confirmed"
    case SnapshotLogged(SnapshotFailed, _) => "archive_snapshot.failed"
    case SnapshotAttempted(_, _) => "archive_snapshot.attempted"
    case ExportCreated(_, _, _, _) => "export.created"
  }

  // ----- Payloads are dicts -----

  lemma RowKeysDistinct()
    ensures Distinct(POST_KEYS) && Distinct(ARTIFACT_KEYS) && Distinct(SNAPSHOT_KEYS)
  {
  }

  lemma MentionKeysDistinct()
    ensures Distinct(MENTION_KEYS)
  {
  }

  lemma SmallKeysDistinct(e: Event)
    ensures !e.PostCreated? && !e.ArtifactLogged? && !e.MentionCreated? && !e.SnapshotLogged? ==> Distinct(KeysOf(e))
  {
    hide POST_KEYS, ARTIFACT_KEYS, MENTION_KEYS, SNAPSHOT_KEYS;
  }

  lemma KeysDistinct(e: Event)
    ensures Distinct(KeysOf(e))
  {
    hide Distinct;
    RowKeysDistinct();
    MentionKeysDistinct();
    SmallKeysDistinct(e);
  }

  lemma ValueIsDict(e: Event, i: nat)
    ensures IsDict(ValueOf(e, i))
  {
  }

  predicate AboutMention(e: Event) {
    e.MentionCreated? || e.TermsUpdated? || e.StatusChanged? || e.CaptureStateChanged?
  }

  predicate AboutSnapshot(e: Event) {
    e.SnapshotLogged? || e.SnapshotAttempted?
  }

  lemma NoBrace(e: Event)
    requires !AboutMention(e) && !AboutSnapshot(e)
    ensures '{' !in TypeOf(e)
  {
  }

  lemma NoBraceMention(e: Event)
    requires AboutMention(e)
    ensures '{' !in TypeOf(e)
  {
  }

  lemma NoBraceSnapshot(e: Event)
    requires AboutSnapshot(e)
    ensures '{' !in TypeOf(e)
  {
  }

  /** A payload is a dict, and no event type holds a brace: what the material's unique decoding asks. */
  lemma PayloadIsDict(e: Event)
    ensures IsDict(PayloadOf(e)) && PayloadOf(e).Obj? && '{' !in TypeOf(e)
  {
    hide ValueOf, KeysOf, TypeOf;
    KeysDistinct(e);
    forall m | m in PayloadOf(e).members ensures IsDict(m.value) {
      var i :| 0 <= i < |KeysOf(e)| && m == Member(KeysOf(e)[i], ValueOf(e, i));
      ValueIsDict(e, i);
    }
    if AboutSnapshot(e) {
      NoBraceSnapshot(e);
    } else if AboutMention(e) {
      NoBraceMention(e);
    } else {
      NoBrace(e);
    }
  }

  // ----- Every column is under its own name -----

  ghost predicate Has(v: Json, key: string, x: Json) {
    v.Obj? && Member(key, x) in v.members
  }

  ghost predicate HasPost(v: Json, p: Post) {
    && Has(v, "id", Str(p.id)) && Has(v, "platform", Str(p.platform)) && Has(v, "external_id", OptStr(p.externalId))
    && Has(v, "url", Str(p.url)) && Has(v, "body", Str(p.body)) && Has(v, "language", Str(p.language))
    && Has(v, "published_at", Str(p.publishedAt)) && Has(v, "ingested_at", Str(StampOf(p.ingestedAt)))
    && Has(v, "brand_mentioned", Bool(p.brandMentioned)) && Has(v, "source_path", Str(p.sourcePath))
  }

  ghost predicate HasMention(v: Json, m: Mention) {
    && Has(v, "id", Str(m.id)) && Has(v, "source", Str(m.source)) && Has(v, "url", Str(m.url))
    && Has(v, "title", Str(m.title)) && Has(v, "excerpt", Str(m.excerpt)) && Has(v, "author", OptStr(m.author))
    && Has(v, "published_at", OptStr(m.publishedAt)) && Has(v, "discovered_at", Str(StampOf(m.discoveredAt)))
    && Has(v, "matched_terms", Strings(m.matchedTerms)) && Has(v, "status", Str(TriageName(m.status)))
    && Has(v, "notes", OptStr(m.notes)) && Has(v, "capture_state", Str(CaptureName(m.captureState)))
    && Has(v, "capture_attempts", Num(m.captureAttempts))
  }

  ghost predicate HasArtifact(v: Json, a: Artifact) {
    && Has(v, "id", Str(a.id)) && Has(v, "subject_type", Str(a.subjectType)) && Has(v, "subject_id", Str(a.subjectId))
    && Has(v, "kind", Str(a.kind)) && Has(v, "sha256", Str(a.sha256)) && Has(v, "bytes", Num(a.bytes))
    && Has(v, "captured_at", Str(a.capturedAt)) && Has(v, "capture_meta", a.captureMeta)
  }

  ghost predicate HasSnapshot(v: Json, s: Snapshot) {
    && Has(v, "id", Str(s.id)) && Has(v, "subject_type", Str(s.subjectType)) && Has(v, "subject_id", Str(s.subjectId))
    && Has(v, "provider", Str(s.provider)) && Has(v, "request_url", Str(s.requestUrl))
    && Has(v, "provider_ref", OptStr(s.providerRef)) && Has(v, "snapshot_url", OptStr(s.snapshotUrl))
    && Has(v, "status", Str(StatusName(s.status))) && Has(v, "submitted_at", Str(StampOf(s.submittedAt)))
    && Has(v, "confirmed_at", OptTime(s.confirmedAt)) && Has(v, "attempts", Num(s.attempts))
  }

  /** What the payload of each event says, key by key. */
  ghost predicate Tells(v: Json, e: Event) {
    match e
    case PostCreated(p) => HasPost(v, p)
    case ArtifactLogged(_, a) => HasArtifact(v, a)
    case MentionCreated(m) => HasMention(v, m)
    case TermsUpdated(id, terms, source) =>
      Has(v, "id", Str(id)) && Has(v, "matched_terms", Strings(terms)) && Has(v, "source", Str(source))
    case StatusChanged(id, status, note) =>
      Has(v, "id", Str(id)) && Has(v, "status", Str(TriageName(status))) && Has(v, "note", OptStr(note))
    case CaptureStateChanged(id, state, attempts) =>
      && Has(v, "id", Str(id)) && Has(v, "capture_state", Str(CaptureName(state)))
      && Has(v, "capture_attempts", Num(attempts))
    case SnapshotLogged(_, s) => HasSnapshot(v, s)
    case SnapshotAttempted(id, attempts) => Has(v, "id", Str(id)) && Has(v, "attempts", Num(attempts))
    case ExportCreated(path, manifest, files, timestamp) =>
      && Has(v, "path", Str(path)) && Has(v, "manifest_sha256", Str(manifest)) && Has(v, "files", Num(files))
      && Has(v, "timestamp", OptDict(timestamp))
  }

  lemma ColumnAt(e: Event, i: nat)
    requires i < |KeysOf(e)|
    ensures Has(PayloadOf(e), KeysOf(e)[i], ValueOf(e, i))
  {
    hide KeysOf, ValueOf;
    assert PayloadOf(e).members[i] == Member(KeysOf(e)[i], ValueOf(e, i));
  }

  lemma PostTells(p: Post)
    ensures HasPost(PayloadOf(PostCreated(p)), p)
  {
    hide Has, PayloadOf, StampOf;
    var e := PostCreated(p);
    ColumnAt(e, 0); ColumnAt(e, 1); ColumnAt(e, 2); ColumnAt(e, 3); ColumnAt(e, 4);
    ColumnAt(e, 5); ColumnAt(e, 6); ColumnAt(e, 7); ColumnAt(e, 8); ColumnAt(e, 9);
  }

  lemma MentionTells(m: Mention)
    ensures HasMention(PayloadOf(MentionCreated(m)), m)
  {
    hide Has, PayloadOf, StampOf, TriageName, CaptureName, Strings;
    var e := MentionCreated(m);
    ColumnAt(e, 0); ColumnAt(e, 1); ColumnAt(e, 2); ColumnAt(e, 3); ColumnAt(e, 4); ColumnAt(e, 5); ColumnAt(e, 6);
    ColumnAt(e, 7); ColumnAt(e, 8); ColumnAt(e, 9); ColumnAt(e, 10); ColumnAt(e, 11); ColumnAt(e, 12);
  }

  lemma ArtifactTells(how: ArtifactEvent, a: Artifact)
    ensures HasArtifact(PayloadOf(ArtifactLogged(how, a)), a)
  {
    hide Has, PayloadOf;
    var e := ArtifactLogged(how, a);
    ColumnAt(e, 0); ColumnAt(e, 1); ColumnAt(e, 2); ColumnAt(e, 3);
    ColumnAt(e, 4); ColumnAt(e, 5); ColumnAt(e, 6); ColumnAt(e, 7);
  }

  lemma SnapshotTells(what: SnapshotEvent, s: Snapshot)
    ensures HasSnapshot(PayloadOf(SnapshotLogged(what, s)), s)
  {
    hide Has, PayloadOf, StampOf, OptTime, StatusName;
    var e := SnapshotLogged(what, s);
    ColumnAt(e, 0); ColumnAt(e, 1); ColumnAt(e, 2); ColumnAt(e, 3); ColumnAt(e, 4); ColumnAt(e, 5);
    ColumnAt(e, 6); ColumnAt(e, 7); ColumnAt(e, 8); ColumnAt(e, 9); ColumnAt(e, 10);
  }

  lemma SmallTells(e: Event)
    requires !e.PostCreated? && !e.ArtifactLogged? && !e.MentionCreated? && !e.SnapshotLogged?
    ensures Tells(PayloadOf(e), e)
  {
    hide Has, PayloadOf, POST_KEYS, MENTION_KEYS, ARTIFACT_KEYS, SNAPSHOT_KEYS;
    ColumnAt(e, 0);
    ColumnAt(e, 1);
    if |KeysOf(e)| > 2 {
      ColumnAt(e, 2);
    }
    if |KeysOf(e)| > 3 {
      ColumnAt(e, 3);
    }
  }

  /** A payload holds every column of its row, or every part of its event, under the column's own name. */
  lemma PayloadTells(e: Event)
    ensures Tells(PayloadOf(e), e)
  {
    hide Has, PayloadOf, HasPost, HasMention, HasArtifact, HasSnapshot;
    match e
    case PostCreated(p) => PostTells(p);
    case ArtifactLogged(how, a) => ArtifactTells(how, a);
    case MentionCreated(m) => MentionTells(m);
    case SnapshotLogged(what, s) => SnapshotTells(what, s);
    case _ => SmallTells(e);
  }

  // ----- Type and payload give the event back -----

  predicate Flat(v: Json) {
    !v.Arr? && !v.Obj?
  }

  /** Equal payloads over one list of keys are equal value by value. */
  lemma SameByPlace(e: Event, f: Event, i: nat)
    requires KeysOf(e) == KeysOf(f) && Same(PayloadOf(e), PayloadOf(f)) && i < |KeysOf(e)|
    ensures Same(ValueOf(e, i), ValueOf(f, i))
    ensures Flat(ValueOf(e, i)) ==> ValueOf(e, i) == ValueOf(f, i)
  {
    hide ValueOf, KeysOf;
    KeysDistinct(e);
    var m := PayloadOf(e).members[i];
    assert m in PayloadOf(e).members && HasMember(m, PayloadOf(f).members);
  }

  lemma DictUnique(a: Dict, b: Dict)
    requires Same(a, b)
    ensures a == b
  {
    NormSame(a, b);
  }

  lemma StringsUnique(a: seq<string>, b: seq<string>)
    requires Same(Strings(a), Strings(b))
    ensures a == b
  {
    forall i | 0 <= i < |a| ensures a[i] == b[i] {
      assert Same(Strings(a).items[i], Strings(b).items[i]);
    }
  }

  lemma NamesUnique()
    ensures forall s, t :: TriageName(s) == TriageName(t) ==> s == t
    ensures forall s, t :: CaptureName(s) == CaptureName(t) ==> s == t
    ensures forall s, t :: StatusName(s) == StatusName(t) ==> s == t
  {
  }

  /** The first n values agree: flat ones are equal, lists and dicts are the same. */
  ghost predicate Agree(e: Event, f: Event, n: nat) {
    forall i: nat :: i < n ==>
      Same(ValueOf(e, i), ValueOf(f, i)) && (Flat(ValueOf(e, i)) ==> ValueOf(e, i) == ValueOf(f, i))
  }

  lemma PayloadsAgree(e: Event, f: Event)
    requires KeysOf(e) == KeysOf(f) && Same(PayloadOf(e), PayloadOf(f))
    ensures Agree(e, f, |KeysOf(e)|)
  {
    hide KeysOf, ValueOf, Same, Flat;
    forall i: nat | i < |KeysOf(e)|
      ensures Same(ValueOf(e, i), ValueOf(f, i)) && (Flat(ValueOf(e, i)) ==> ValueOf(e, i) == ValueOf(f, i))
    {
      SameByPlace(e, f, i);
    }
  }

  lemma PostFirst(e: Event, f: Event)
    requires e.PostCreated? && f.PostCreated? && Agree(e, f, 10)
    ensures var p, q := e.post, f.post;
      p.id == q.id && p.platform == q.platform && p.externalId == q.externalId && p.url == q.url && p.body == q.body
  {
    hide Same, StampOf;
    assert ValueOf(e, 0) == ValueOf(f, 0) && ValueOf(e, 1) == ValueOf(f, 1);
    assert ValueOf(e, 2) == ValueOf(f, 2) && ValueOf(e, 3) == ValueOf(f, 3) && ValueOf(e, 4) == ValueOf(f, 4);
  }

  lemma PostRest(e: Event, f: Event)
    requires e.PostCreated? && f.PostCreated? && Agree(e, f, 10)
    ensures var p, q := e.post, f.post;
      && p.language == q.language && p.publishedAt == q.publishedAt && p.ingestedAt == q.ingestedAt
      && p.brandMentioned == q.brandMentioned && p.sourcePath == q.sourcePath
  {
    hide Same, StampOf;
    StampOfOrder(e.post.ingestedAt, f.post.ingestedAt);
    assert ValueOf(e, 5) == ValueOf(f, 5) && ValueOf(e, 6) == ValueOf(f, 6);
    assert ValueOf(e, 7) == ValueOf(f, 7) && ValueOf(e, 8) == ValueOf(f, 8) && ValueOf(e, 9) == ValueOf(f, 9);
  }

  lemma PostUnique(e: Event, f: Event)
    requires e.PostCreated? && f.PostCreated? && Agree(e, f, 10)
    ensures e == f
  {
    hide Agree;
    PostFirst(e, f);
    PostRest(e, f);
  }

  lemma ArtifactUnique(e: Event, f: Event)
    requires e.ArtifactLogged? && f.ArtifactLogged? && Agree(e, f, 8)
    ensures e.artifact == f.artifact
  {
    hide Same;
    assert ValueOf(e, 0) == ValueOf(f, 0) && ValueOf(e, 1) == ValueOf(f, 1);
    assert ValueOf(e, 2) == ValueOf(f, 2) && ValueOf(e, 3) == ValueOf(f, 3);
    assert ValueOf(e, 4) == ValueOf(f, 4) && ValueOf(e, 5) == ValueOf(f, 5);
    assert ValueOf(e, 6) == ValueOf(f, 6) && Same(ValueOf(e, 7), ValueOf(f, 7));
    DictUnique(e.artifact.captureMeta, f.artifact.captureMeta);
  }

  lemma MentionFirst(e: Event, f: Event)
    requires e.MentionCreated? && f.MentionCreated? && Agree(e, f, 13)
    ensures var m, n := e.mention, f.mention;
      && m.id == n.id && m.source == n.source && m.url == n.url && m.title == n.title
      && m.excerpt == n.excerpt && m.author == n.author
  {
    hide Same, StampOf;
    assert ValueOf(e, 0) == ValueOf(f, 0) && ValueOf(e, 1) == ValueOf(f, 1);
    assert ValueOf(e, 2) == ValueOf(f, 2) && ValueOf(e, 3) == ValueOf(f, 3);
    assert ValueOf(e, 4) == ValueOf(f, 4) && ValueOf(e, 5) == ValueOf(f, 5);
  }

  lemma MentionMiddle(e: Event, f: Event)
    requires e.MentionCreated? && f.MentionCreated? && Agree(e, f, 13)
    ensures var m, n := e.mention, f.mention;
      m.publishedAt == n.publishedAt && m.discoveredAt == n.discoveredAt && m.matchedTerms == n.matchedTerms
  {
    hide Same, StampOf;
    StampOfOrder(e.mention.discoveredAt, f.mention.discoveredAt);
    assert ValueOf(e, 6) == ValueOf(f, 6) && ValueOf(e, 7) == ValueOf(f, 7) && Same(ValueOf(e, 8), ValueOf(f, 8));
    StringsUnique(e.mention.matchedTerms, f.mention.matchedTerms);
  }

  lemma MentionRest(e: Event, f: Event)
    requires e.MentionCreated? && f.MentionCreated? && Agree(e, f, 13)
    ensures var m, n := e.mention, f.mention;
      && m.status == n.status && m.notes == n.notes
      && m.captureState == n.captureState && m.captureAttempts == n.captureAttempts
  {
    hide Same, StampOf;
    NamesUnique();
    assert ValueOf(e, 9) == ValueOf(f, 9) && ValueOf(e, 10) == ValueOf(f, 10);
    assert ValueOf(e, 11) == ValueOf(f, 11) && ValueOf(e, 12) == ValueOf(f, 12);
  }

  lemma MentionUnique(e: Event, f: Event)
    requires e.MentionCreated? && f.MentionCreated? && Agree(e, f, 13)
    ensures e == f
  {
    hide Agree;
    MentionFirst(e, f);
    MentionMiddle(e, f);
    MentionRest(e, f);
  }

  lemma SnapshotFirst(e: Event, f: Event)
    requires e.SnapshotLogged? && f.SnapshotLogged? && Agree(e, f, 11)
    ensures var s, t := e.snapshot, f.snapshot;
      && s.id == t.id && s.subjectType == t.subjectType && s.subjectId == t.subjectId && s.provider == t.provider
      && s.requestUrl == t.requestUrl && s.providerRef == t.providerRef
  {
    hide Same, StampOf;
    assert ValueOf(e, 0) == ValueOf(f, 0) && ValueOf(e, 1) == ValueOf(f, 1);
    assert ValueOf(e, 2) == ValueOf(f, 2) && ValueOf(e, 3) == ValueOf(f, 3);
    assert ValueOf(e, 4) == ValueOf(f, 4) && ValueOf(e, 5) == ValueOf(f, 5);
  }

  lemma SnapshotMiddle(e: Event, f: Event)
    requires e.SnapshotLogged? && f.SnapshotLogged? && Agree(e, f, 11)
    ensures var s, t := e.snapshot, f.snapshot;
      s.snapshotUrl == t.snapshotUrl && s.status == t.status && s.submittedAt == t.submittedAt
  {
    hide Same, StampOf;
    NamesUnique();
    StampOfOrder(e.snapshot.submittedAt, f.snapshot.submittedAt);
    assert ValueOf(e, 6) == ValueOf(f, 6) && ValueOf(e, 7) == ValueOf(f, 7) && ValueOf(e, 8) == ValueOf(f, 8);
  }

  lemma OptTimeUnique(s: Option<Time>, t: Option<Time>)
    requires OptTime(s) == OptTime(t)
    ensures s == t
  {
    if s.Some? && t.Some? {
      StampOfOrder(s.value, t.value);
    }
  }

  lemma SnapshotRest(e: Event, f: Event)
    requires e.SnapshotLogged? && f.SnapshotLogged? && Agree(e, f, 11)
    ensures e.snapshot.confirmedAt == f.snapshot.confirmedAt && e.snapshot.attempts == f.snapshot.attempts
  {
    hide Same, StampOf;
    assert ValueOf(e, 9) == ValueOf(f, 9) && ValueOf(e, 10) == ValueOf(f, 10);
    OptTimeUnique(e.snapshot.confirmedAt, f.snapshot.confirmedAt);
  }

  lemma SnapshotUnique(e: Event, f: Event)
    requires e.SnapshotLogged? && f.SnapshotLogged? && Agree(e, f, 11)
    ensures e.snapshot == f.snapshot
  {
    hide Agree;
    SnapshotFirst(e, f);
    SnapshotMiddle(e, f);
    SnapshotRest(e, f);
  }

  lemma TermsUnique(e: Event, f: Event)
    requires e.TermsUpdated? && f.TermsUpdated? && Agree(e, f, 3)
    ensures e == f
  {
    hide Same;
    assert ValueOf(e, 0) == ValueOf(f, 0) && Same(ValueOf(e, 1), ValueOf(f, 1)) && ValueOf(e, 2) == ValueOf(f, 2);
    StringsUnique(e.terms, f.terms);
  }

  lemma ExportUnique(e: Event, f: Event)
    requires e.ExportCreated? && f.ExportCreated? && Agree(e, f, 4)
    ensures e == f
  {
    assert ValueOf(e, 0) == ValueOf(f, 0) && ValueOf(e, 1) == ValueOf(f, 1) && ValueOf(e, 2) == ValueOf(f, 2);
    assert Same(ValueOf(e, 3), ValueOf(f, 3));
    if e.timestamp.Some? && f.timestamp.Some? {
      DictUnique(e.timestamp.value, f.timestamp.value);
    }
  }

  lemma SmallUnique(e: Event, f: Event)
    requires || (e.StatusChanged? && f.StatusChanged? && Agree(e, f, 3))
             || (e.CaptureStateChanged? && f.CaptureStateChanged? && Agree(e, f, 3))
             || (e.SnapshotAttempted? && f.SnapshotAttempted? && Agree(e, f, 2))
    ensures e == f
  {
    hide Same;
    NamesUnique();
    assert ValueOf(e, 0) == ValueOf(f, 0) && ValueOf(e, 1) == ValueOf(f, 1);
    if !e.SnapshotAttempted? {
      assert ValueOf(e, 2) == ValueOf(f, 2);
    }
  }

  /** Events of one type have the same columns, and came about the same way. */
  lemma TypeUnique(e: Event, f: Event)
    requires TypeOf(e) == TypeOf(f)
    ensures KeysOf(e) == KeysOf(f)
    ensures e.ArtifactLogged? && f.ArtifactLogged? ==> e.how == f.how
    ensures e.SnapshotLogged? && f.SnapshotLogged? ==> e.what == f.what
  {
  }

  /** An event's type and payload determine it. */
  lemma EventUnique(e: Event, f: Event)
    requires TypeOf(e) == TypeOf(f) && Same(PayloadOf(e), PayloadOf(f))
    ensures e == f
  {
    hide TypeOf, ValueOf, Same, Agree, PayloadOf;
    TypeUnique(e, f);
    PayloadsAgree(e, f);
    match e
    case PostCreated(_) => PostUnique(e, f);
    case ArtifactLogged(_, _) => ArtifactUnique(e, f);
    case MentionCreated(_) => MentionUnique(e, f);
    case TermsUpdated(_, _, _) => TermsUnique(e, f);
    case SnapshotLogged(_, _) => SnapshotUnique(e, f);
    case ExportCreated(_, _, _, _) => ExportUnique(e, f);
    case _ => SmallUnique(e, f);
  }
}
