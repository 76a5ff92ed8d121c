/**
 What holds of the record after any run of transactions: its artifacts have their
 blobs, and its mentions carry exactly the terms the committed crawls brought.
 */
module RecordRuns {
  import opened Database
  import opened Sessions
  import opened Store
  import opened CapturePipeline
  import opened ArchivePoll
  import opened Terms
  import opened Crawler
  import opened CaptureLoop
  import opened EvidenceRows
  import opened Transactions
  import opened Frames

  // ----- Every recorded artifact has its blob -----

  predicate BackedRow(files: Files, a: Artifact) {
    a.sha256 in files && a.bytes == |files[a.sha256]|
  }

  /** Files hash to their names, and every artifact row names a file of its size. */
  ghost predicate Backed(sha: Digest, r: Record) {
    && Intact(sha, r.files)
    && forall id <- r.db.tables.artifacts :: BackedRow(r.files, r.db.tables.artifacts[id])
  }

  lemma BackedAdd(sha: Digest, r: Record, how: ArtifactEvent, a: Artifact, data: Bytes)
    requires Backed(sha, r) && AddArtifact(r.db, how, a).Some?
    requires a.sha256 == sha(data) && a.bytes == PutSize(sha, r.files, data)
    ensures Backed(sha, Record(AddArtifact(r.db, how, a).value, PutFile(sha, r.files, data)))
  {
  }

  lemma {:induction false} BackedKinds(sha: Digest, r: Record, who: Subject, c: Capture, ids: seq<string>, n: nat)
    requires n <= 3 == |ids| && Backed(sha, r)
    ensures var s := StoreKinds(sha, r.db, r.files, who, c, ids, n);
      s.Some? ==> Backed(sha, Record(s.value.0, s.value.1))
  {
    if n > 0 {
      BackedKinds(sha, r, who, c, ids, n - 1);
      var before := StoreKinds(sha, r.db, r.files, who, c, ids, n - 1);
      if before.Some? {
        var s := Record(before.value.0, before.value.1);
        var row := ArtifactRow(sha, s.files, who, c, ids[n - 1], n - 1);
        if AddArtifact(s.db, ArtifactCreated, row).Some? {
          BackedAdd(sha, s, ArtifactCreated, row, DataOf(c, n - 1));
        }
      }
    }
  }

  lemma BackedStore(sha: Digest, r: Record, who: Subject, url: string, e: Evidence)
    requires Backed(sha, r)
    ensures var s := StoreEvidence(sha, r, who, url, e); s.Some? ==> Backed(sha, s.value)
  {
    BackedKinds(sha, r, who, e.capture, e.artifactIds, 3);
  }

  lemma BackedBlob(sha: Digest, r: Record, how: ArtifactEvent, subjectType: string, subjectId: string, kind: string,
                   b: Blob)
    requires Backed(sha, r)
    ensures var s := AddBlob(sha, r, how, subjectType, subjectId, kind, b); s.Some? ==> Backed(sha, s.value)
  {
    var row := BlobRow(sha, r.files, subjectType, subjectId, kind, b);
    if AddArtifact(r.db, how, row).Some? {
      BackedAdd(sha, r, how, row, b.data);
    }
  }

  lemma {:induction false} BackedPuts(sha: Digest, r: Record, data: seq<Bytes>, n: nat)
    requires Backed(sha, r)
    ensures Backed(sha, r.(files := PutFirst(sha, r.files, data, n)))
    decreases n
  {
    if n > 0 && data != [] {
      BackedPuts(sha, r.(files := PutFile(sha, r.files, data[0])), data[1..], n - 1);
    }
  }

  lemma ExecBacked(sha: Digest, norm: UrlNorm, r: Record, x: Txn)
    requires Backed(sha, r) && RowsKeyed(r.db.tables) && Exec(sha, norm, r, x).Some?
    ensures Backed(sha, Exec(sha, norm, r, x).value)
  {
    hide StoreEvidence, AbsorbAll, History, RecordAttempt, Tag, SetStatus, AddBlob;
    match x
    case Dedupe(arrivals) => AbsorbAllFrame(norm, r.db, arrivals);
    case Visited(id, url, visit) =>
      if visit.Fetched? {
        BackedStore(sha, r, Subject("mention", id), url, visit.evidence);
      }
    case PostCaptured(id, url, e) => BackedStore(sha, r, Subject("post", id), url, e);
    case Answered(id, ref, answer, at) => AnswerFrame(r.db, id, ref, answer, at, "post");
    case FoundHistory(id, provider, url, found, rows) =>
      HistoryFrame(r.db, KnownUrls(r.db, id), Subject("post", id), provider, url, found, rows);
    case Attached(toPost, kind, b) =>
      BackedBlob(sha, r, ArtifactAttached, "post", toPost.GetOr(""), kind, b);
      BackedBlob(sha, r, ArtifactAttached, "project", "project", kind, b);
    case Stamped(b) => BackedBlob(sha, r, ChainTimestamped, "project", "project", "timestamp", b);
    case Triaged(id, status, note) =>
      UnknownMention(r.db, id, status, note);
      StatusFrame(r.db, id, status, note, "post");
    case Tagged(id, tag) => TagFrame(r.db, id, tag, "post");
    case _ =>
  }

  /**
   Whatever crashes between a blob and its row, and whatever transactions roll back,
   every recorded artifact names a stored file of the recorded size whose content
   hashes to the recorded digest.
   */
  lemma {:induction false} ArtifactsBacked(sha: Digest, norm: UrlNorm, moves: seq<Move>)
    ensures Backed(sha, Run(sha, norm, moves))
  {
    if moves != [] {
      var before, m := Run(sha, norm, moves[..|moves| - 1]), moves[|moves| - 1];
      ArtifactsBacked(sha, norm, moves[..|moves| - 1]);
      LogReplays(sha, norm, moves[..|moves| - 1]);
      if m.commits && Exec(sha, norm, before, m.txn).Some? {
        ExecBacked(sha, norm, before, m.txn);
      } else {
        BackedPuts(sha, before, Data(m.txn), m.puts);
      }
    }
  }

  /** The digests of all artifacts, each once. */
  function Digests(t: Tables): set<string> {
    set id | id in t.artifacts :: t.artifacts[id].sha256
  }

  /** What the check of a whole record lists as missing or corrupted. */
  function Missing(sha: Digest, files: Files, t: Tables): set<string> {
    set d | d in Digests(t) && !Holds(sha, files, d)
  }

  /** Two contents that differ and hash alike. */
  predicate BlobCollision(sha: Digest, x: Bytes, y: Bytes) {
    x != y && sha(x) == sha(y)
  }

  /**
   After any run, let anything at all happen to the stored files: the check lists exactly
   the artifacts whose file is gone or no longer what was stored, where an altered file
   can pass only by colliding with the stored one.
   */
  lemma MissingExact(sha: Digest, norm: UrlNorm, moves: seq<Move>, later: Files, id: string)
    requires id in Run(sha, norm, moves).db.tables.artifacts
    ensures var r := Run(sha, norm, moves);
      var d := r.db.tables.artifacts[id].sha256;
      && d in r.files
      && (d in Missing(sha, later, r.db.tables) <==>
            d !in later || (later[d] != r.files[d] && !BlobCollision(sha, later[d], r.files[d])))
  {
    hide Run;
    ArtifactsBacked(sha, norm, moves);
    var r := Run(sha, norm, moves);
    assert BackedRow(r.files, r.db.tables.artifacts[id]);
    assert r.db.tables.artifacts[id].sha256 in Digests(r.db.tables);
  }

  // ----- What crawls have taught the record -----

  ghost predicate SameTerms(t: Tables, u: Tables) {
    && t.mentions.Keys == u.mentions.Keys
    && forall id <- t.mentions ::
         t.mentions[id].url == u.mentions[id].url && t.mentions[id].matchedTerms == u.mentions[id].matchedTerms
  }

  lemma StateTerms(db: Db, id: string, state: CaptureState)
    requires RowsKeyed(db.tables)
    ensures SameTerms(db.tables, RecordCaptureState(db, id, state).tables)
  {
  }

  lemma FailTerms(db: Db, id: string)
    requires RowsKeyed(db.tables)
    ensures SameTerms(db.tables, FailCapture(db, id).tables)
  {
  }

  lemma StoredTerms(sha: Digest, r: Record, id: string, url: string, e: Evidence)
    requires RowsKeyed(r.db.tables) && StoreEvidence(sha, r, Subject("mention", id), url, e).Some?
    ensures var s := StoreEvidence(sha, r, Subject("mention", id), url, e).value;
      SameTerms(r.db.tables, RecordCaptureState(s.db, id, Captured).tables)
  {
    hide StoreEvidence;
    StoreEvidenceKeyed(sha, r, Subject("mention", id), url, e);
    StateTerms(StoreEvidence(sha, r, Subject("mention", id), url, e).value.db, id, Captured);
  }

  lemma SettleTerms(sha: Digest, r: Record, id: string, url: string, v: Visit)
    requires RowsKeyed(r.db.tables) && Settle(sha, r, id, url, v).Some?
    ensures SameTerms(r.db.tables, Settle(sha, r, id, url, v).value.db.tables)
  {
    hide StoreEvidence, RecordCaptureState, FailCapture;
    match v
    case Wait =>
    case Skip => StateTerms(r.db, id, Skipped);
    case Threw => FailTerms(r.db, id);
    case Fetched(e) => StoredTerms(sha, r, id, url, e);
  }

  lemma ExecTerms(sha: Digest, norm: UrlNorm, r: Record, x: Txn)
    requires RowsKeyed(r.db.tables) && Exec(sha, norm, r, x).Some? && !x.Dedupe?
    ensures SameTerms(r.db.tables, Exec(sha, norm, r, x).value.db.tables)
  {
    hide StoreEvidence, Settle, History, RecordAttempt;
    match x
    case Visited(id, url, visit) => SettleTerms(sha, r, id, url, visit);
    case PostCaptured(id, url, e) => StoreEvidenceKeyed(sha, r, Subject("post", id), url, e);
    case Answered(id, ref, answer, at) => AnswerFrame(r.db, id, ref, answer, at, "post");
    case FoundHistory(id, provider, url, found, rows) =>
      HistoryFrame(r.db, KnownUrls(r.db, id), Subject("post", id), provider, url, found, rows);
    case _ =>
  }

  lemma SameTermsAt(db: Db, d: Db, url: string)
    requires Sorted(db) && SameTerms(db.tables, d.tables) && RowsKeyed(d.tables)
    ensures Sorted(d) && TermsAt(d, url) == TermsAt(db, url)
  {
    assert forall id :: IsMention(db, id, url) <==> IsMention(d, id, url);
    SameFind(db, d, url);
  }

  lemma RunLearnsMore(norm: UrlNorm, db: Db, arrivals: seq<Arrival>, url: string, known: bool, terms: set<string>)
    requires Sorted(db) && AbsorbAll(norm, db, arrivals).Some?
    requires Knows(db, url, known, terms) && (!known ==> terms == {})
    ensures var d := AbsorbAll(norm, db, arrivals).value;
      Sorted(d) && Knows(d, url, known || Seen(norm, arrivals, url), terms + Brings(norm, arrivals, url))
  {
    RunLearns(norm, db, arrivals, url);
    assert Elements(TermsAt(db, url).GetOr([])) == terms;
  }

  /** The hits of the crawls that committed, in order. */
  ghost function Heard(sha: Digest, norm: UrlNorm, moves: seq<Move>): seq<Arrival> {
    if moves == [] then []
    else
      var n := |moves| - 1;
      Heard(sha, norm, moves[..n]) +
      match moves[n].txn
      case Dedupe(arrivals) =>
        if moves[n].commits && AbsorbAll(norm, Run(sha, norm, moves[..n]).db, arrivals).Some? then arrivals else []
      case _ => []
  }

  lemma HeardMore(norm: UrlNorm, xs: seq<Arrival>, ys: seq<Arrival>, url: string)
    ensures Seen(norm, xs + ys, url) <==> Seen(norm, xs, url) || Seen(norm, ys, url)
    ensures Brings(norm, xs + ys, url) == Brings(norm, xs, url) + Brings(norm, ys, url)
    ensures !Seen(norm, xs, url) ==> Brings(norm, xs, url) == {}
  {
    assert forall a :: a in xs + ys <==> a in xs || a in ys;
  }

  /**
   After any run a URL has a mention exactly when some committed crawl hit it, and the
   mention's terms are the sorted union of the terms of all those hits, whatever their
   order, their split into runs, and the transactions around them.
   */
  lemma {:induction false} MentionsLearn(sha: Digest, norm: UrlNorm, moves: seq<Move>, url: string)
    ensures var db, heard := Run(sha, norm, moves).db, Heard(sha, norm, moves);
      Sorted(db) && Knows(db, url, Seen(norm, heard, url), Brings(norm, heard, url))
  {
    if moves != [] {
      var n := |moves| - 1;
      var before, m := Run(sha, norm, moves[..n]), moves[n];
      MentionsLearn(sha, norm, moves[..n], url);
      LogReplays(sha, norm, moves[..n]);
      LogReplays(sha, norm, moves);
      var x := Exec(sha, norm, before, m.txn);
      var news := if m.txn.Dedupe? && m.commits && x.Some? then m.txn.arrivals else [];
      var heard := Heard(sha, norm, moves[..n]);
      HeardMore(norm, heard, news, url);
      if m.commits && x.Some? {
        if m.txn.Dedupe? {
          RunLearnsMore(norm, before.db, m.txn.arrivals, url, Seen(norm, heard, url), Brings(norm, heard, url));
        } else {
          ExecTerms(sha, norm, before, m.txn);
          SameTermsAt(before.db, x.value.db, url);
        }
      }
    }
  }

  /** Two records whose crawls brought the same terms for a URL hold the same list for it. */
  lemma CrawlsConfluent(sha: Digest, norm: UrlNorm, a: seq<Move>, b: seq<Move>, url: string)
    requires Seen(norm, Heard(sha, norm, a), url) == Seen(norm, Heard(sha, norm, b), url)
    requires Brings(norm, Heard(sha, norm, a), url) == Brings(norm, Heard(sha, norm, b), url)
    ensures TermsAt(Run(sha, norm, a).db, url) == TermsAt(Run(sha, norm, b).db, url)
  {
    MentionsLearn(sha, norm, a, url);
    MentionsLearn(sha, norm, b, url);
    KnowsOne(Run(sha, norm, a).db, Run(sha, norm, b).db, url,
             Seen(norm, Heard(sha, norm, a), url), Brings(norm, Heard(sha, norm, a), url));
  }
}
