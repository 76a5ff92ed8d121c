/**
 Ingest calls as processes: each records its post in one transaction, is on the
 network for any time, and stores its capture in a second, while every other
 transaction of the record goes on around it and any of them may die.
 */
module HookRuns {
  import opened Wrappers
  import opened Clock
  import opened Database
  import opened Sessions
  import opened Store
  import opened CapturePipeline
  import opened Crawler
  import opened EvidenceRows
  import opened Transactions
  import opened Frames
  import opened Hook

  /** A call between its two transactions. */
  datatype Call = Call(postId: string, url: string)

  datatype World = World(r: Record, calls: map<nat, Call>)

  datatype Action =
    | Do(move: Move)
    | StartIngest(pid: nat, post: Post, capture: bool)
    | FinishIngest(pid: nat, evidence: Evidence, commits: bool, puts: nat)
    | DropIngest(pid: nat)

  /** Posts and their captures are written by ingest calls alone. */
  predicate Around(x: Txn) {
    !x.Posted? && !x.PostCaptured?
  }

  /** `exclusive`: no call starts while another is at work. A step not enabled changes nothing. */
  ghost function Next(sha: Digest, norm: UrlNorm, w: World, a: Action, exclusive: bool): World {
    match a
    case Do(m) => if Around(m.txn) then w.(r := Step(sha, norm, w.r, m)) else w
    case StartIngest(pid, post, capture) =>
      if pid in w.calls || (exclusive && w.calls != map[]) || !ValidPost(post) then w
      else
        var (db, start) := Begin(w.r.db, post, capture);
        World(w.r.(db := db),
              if start.Begun? && capture then w.calls[pid := Call(start.postId, post.url)] else w.calls)
    case FinishIngest(pid, e, commits, puts) =>
      if pid in w.calls then
        var m := Move(PostCaptured(w.calls[pid].postId, w.calls[pid].url, e), commits, puts);
        World(Step(sha, norm, w.r, m), w.calls - {pid})
      else w
    case DropIngest(pid) => w.(calls := w.calls - {pid})
  }

  ghost function RunHooks(sha: Digest, norm: UrlNorm, actions: seq<Action>, exclusive: bool): World {
    if actions == [] then World(Record(EMPTY, map[]), map[])
    else Next(sha, norm, RunHooks(sha, norm, actions[..|actions| - 1], exclusive), actions[|actions| - 1], exclusive)
  }

  function ThePost(id: string): Subject {
    Subject("post", id)
  }

  // ----- How many entries created a post -----

  predicate Creates(e: Event, url: string) {
    e.PostCreated? && e.post.url == url
  }

  /** post.created entries of a URL. */
  function Creations(log: seq<Event>, url: string): nat {
    if log == [] then 0 else Creations(log[..|log| - 1], url) + if Creates(log[|log| - 1], url) then 1 else 0
  }

  lemma LogCreations(db: Db, t: Tables, e: Event, url: string)
    ensures Creations(Log(db, t, e).log, url) == Creations(db.log, url) + if Creates(e, url) then 1 else 0
  {
    assert Log(db, t, e).log[..|db.log|] == db.log;
  }

  lemma {:induction false} CreationsExtend(a: seq<Event>, b: seq<Event>, x: Txn, url: string)
    requires Appends(a, b, x) && !x.Posted?
    ensures Creations(b, url) == Creations(a, url)
    decreases |b|
  {
    if |a| < |b| {
      var n := |b| - 1;
      assert b[..n][..|a|] == b[..|a|];
      CreationsExtend(a, b[..n], x, url);
    } else {
      assert b[..|a|] == b;
    }
  }

  // ----- What every run keeps, however calls overlap -----

  /** One creation entry for each URL that has a post. */
  ghost predicate OneCreation(db: Db, url: string) {
    Creations(db.log, url) == if exists id :: IsPost(db, id, url) then 1 else 0
  }

  ghost predicate OneEach(db: Db) {
    forall url :: OneCreation(db, url)
  }

  /** A post that does not exist has no evidence. */
  ghost predicate NoneBefore(t: Tables) {
    forall id :: id !in t.posts ==> Bare(t, ThePost(id))
  }

  /** Calls are for posts that exist. */
  predicate CallsKnown(w: World) {
    forall p <- w.calls :: IsPost(w.r.db, w.calls[p].postId, w.calls[p].url)
  }

  ghost predicate Sound(w: World) {
    && RowsKeyed(w.r.db.tables) && PostsKeyed(w.r.db) && OneEach(w.r.db) && NoneBefore(w.r.db.tables)
    && CallsKnown(w)
  }

  /** Posts stay as they are. */
  ghost predicate KeepsPosts(t: Tables, u: Tables) {
    forall id <- t.posts :: id in u.posts && u.posts[id] == t.posts[id]
  }

  lemma PostsKept(db: Db, d: Db)
    requires OneEach(db) && PostsKeyed(db) && d.tables.posts == db.tables.posts
    requires forall url :: Creations(d.log, url) == Creations(db.log, url)
    ensures OneEach(d) && PostsKeyed(d) && KeepsPosts(db.tables, d.tables)
  {
    hide Creations;
    assert forall id, url :: IsPost(d, id, url) <==> IsPost(db, id, url);
    forall url ensures OneCreation(d, url) {
      assert OneCreation(db, url);
    }
  }

  lemma NoneBeforeKept(t: Tables, u: Tables)
    requires NoneBefore(t) && t.posts.Keys <= u.posts.Keys && SameEvidence(t, u, "post")
    ensures NoneBefore(u)
  {
    hide SameEvidence, Bare, FullEvidence;
    forall id | id !in u.posts ensures Bare(u, ThePost(id)) {
      SameFull(t, u, ThePost(id));
    }
  }

  lemma PostCapturedIs(sha: Digest, norm: UrlNorm, r: Record, id: string, url: string, e: Evidence)
    ensures Exec(sha, norm, r, PostCaptured(id, url, e)) == StoreEvidence(sha, r, ThePost(id), url, e)
  {
  }

  lemma CapturedNoneBefore(sha: Digest, norm: UrlNorm, r: Record, x: Txn)
    requires x.PostCaptured? && Exec(sha, norm, r, x).Some?
    requires NoneBefore(r.db.tables) && x.postId in r.db.tables.posts
    ensures NoneBefore(Exec(sha, norm, r, x).value.db.tables)
  {
    hide StoreEvidence, ArtifactRows, CaptureRows, RequestRows, KeepsArtifacts;
    PostCapturedIs(sha, norm, r, x.postId, x.url, x.evidence);
    var u := Exec(sha, norm, r, x).value.db.tables;
    forall id ensures id !in u.posts ==> Bare(u, ThePost(id)) {
      StoreEvidenceExact(sha, r, ThePost(x.postId), x.url, x.evidence, ThePost(id));
    }
  }

  /** What one committed transaction other than a new post leaves of all this. */
  lemma ExecSound(sha: Digest, norm: UrlNorm, r: Record, x: Txn)
    requires RowsKeyed(r.db.tables) && PostsKeyed(r.db) && OneEach(r.db) && NoneBefore(r.db.tables)
    requires Exec(sha, norm, r, x).Some? && !x.Posted?
    requires x.PostCaptured? ==> x.postId in r.db.tables.posts
    ensures var d := Exec(sha, norm, r, x).value.db;
      && RowsKeyed(d.tables) && PostsKeyed(d) && OneEach(d) && NoneBefore(d.tables)
      && d.tables.posts == r.db.tables.posts
  {
    hide Exec, SameEvidence, SameCaptures, OneEach, PostsKeyed, NoneBefore, Creations, RowsKeyed, Appends;
    var d := Exec(sha, norm, r, x).value.db;
    ExecFrame(sha, norm, r, x);
    ExecLog(sha, norm, r, x);
    forall url ensures Creations(d.log, url) == Creations(r.db.log, url) {
      CreationsExtend(r.db.log, d.log, x, url);
    }
    PostsKept(r.db, d);
    if x.PostCaptured? {
      CapturedNoneBefore(sha, norm, r, x);
    } else {
      NoneBeforeKept(r.db.tables, d.tables);
    }
  }

  lemma NewPostSound(db: Db, post: Post)
    requires RowsKeyed(db.tables) && PostsKeyed(db) && OneEach(db) && NoneBefore(db.tables)
    requires FindPost(db, post.url).None? && AddPost(db, post).Some?
    ensures var d := AddPost(db, post).value;
      && RowsKeyed(d.tables) && PostsKeyed(d) && OneEach(d) && NoneBefore(d.tables) && KeepsPosts(db.tables, d.tables)
      && IsPost(d, post.id, post.url) && Bare(d.tables, ThePost(post.id)) && SameEvidence(db.tables, d.tables, "post")
  {
    hide Creations, Bare, FullEvidence, SameEvidence;
    var d := AddPost(db, post).value;
    SameTables(db.tables, d.tables, "post");
    NoneBeforeKept(db.tables, d.tables);
    SameFull(db.tables, d.tables, ThePost(post.id));
    assert forall id, url :: IsPost(d, id, url) <==> IsPost(db, id, url) || (id == post.id && url == post.url);
    forall url ensures OneCreation(d, url) {
      LogCreations(db, PutPost(db.tables, post), PostCreated(post), url);
      assert OneCreation(db, url);
      assert IsPost(d, post.id, post.url);
    }
  }

  lemma CallsStay(w: World, v: World)
    requires CallsKnown(w) && KeepsPosts(w.r.db.tables, v.r.db.tables)
    requires forall p <- v.calls :: p in w.calls && v.calls[p] == w.calls[p]
    ensures CallsKnown(v)
  {
  }

  /** A call that starts finds its post without artifacts, or makes it. */
  ghost predicate StartsBare(w: World, v: World, pid: nat) {
    pid in v.calls && pid !in w.calls ==>
      var who := ThePost(v.calls[pid].postId);
      ArtifactRows(v.r.db.tables, who) == {} || Bare(v.r.db.tables, who)
  }

  /** What starting a call does: nothing, or a new call, or a new post as well. */
  ghost predicate Started(w: World, v: World, pid: nat) {
    && KeepsPosts(w.r.db.tables, v.r.db.tables) && SameEvidence(w.r.db.tables, v.r.db.tables, "post")
    && (forall p :: p in v.calls && p != pid ==> p in w.calls && v.calls[p] == w.calls[p])
    && (pid in w.calls ==> pid in v.calls && v.calls[pid] == w.calls[pid])
    && StartsBare(w, v, pid)
  }

  lemma BeginSound(w: World, post: Post, capture: bool)
    requires Sound(w)
    ensures var (db, start) := Begin(w.r.db, post, capture);
      var who := ThePost(if start.Begun? then start.postId else "");
      && RowsKeyed(db.tables) && PostsKeyed(db) && OneEach(db) && NoneBefore(db.tables)
      && KeepsPosts(w.r.db.tables, db.tables) && SameEvidence(w.r.db.tables, db.tables, "post")
      && (start.Begun? ==> IsPost(db, start.postId, post.url)
                           && (ArtifactRows(db.tables, who) == {} || Bare(db.tables, who)))
  {
    hide OneEach, PostsKeyed, RowsKeyed, NoneBefore, FullEvidence, SameEvidence, Bare, CallsKnown, ArtifactRows;
    SameTables(w.r.db.tables, w.r.db.tables, "post");
    if FindPost(w.r.db, post.url).None? && AddPost(w.r.db, post).Some? {
      NewPostSound(w.r.db, post);
    }
  }

  lemma StartSound(sha: Digest, norm: UrlNorm, w: World, a: Action, exclusive: bool)
    requires Sound(w) && a.StartIngest?
    ensures var v := Next(sha, norm, w, a, exclusive); Sound(v) && Started(w, v, a.pid)
  {
    hide OneEach, PostsKeyed, RowsKeyed, NoneBefore, SameEvidence, Bare, Begin, ArtifactRows;
    SameTables(w.r.db.tables, w.r.db.tables, "post");
    BeginSound(w, a.post, a.capture);
  }

  lemma DoSound(sha: Digest, norm: UrlNorm, w: World, m: Move, exclusive: bool)
    requires Sound(w)
    ensures var v := Next(sha, norm, w, Do(m), exclusive);
      Sound(v) && v.calls == w.calls && SameEvidence(w.r.db.tables, v.r.db.tables, "post")
      && v.r.db.tables.posts == w.r.db.tables.posts
  {
    hide Exec, OneEach, PostsKeyed, RowsKeyed, NoneBefore, SameEvidence, SameCaptures;
    SameTables(w.r.db.tables, w.r.db.tables, "post");
    if Around(m.txn) && m.commits && Exec(sha, norm, w.r, m.txn).Some? {
      ExecSound(sha, norm, w.r, m.txn);
      ExecFrame(sha, norm, w.r, m.txn);
    }
  }

  lemma FinishSound(sha: Digest, norm: UrlNorm, w: World, a: Action, exclusive: bool)
    requires Sound(w) && a.FinishIngest?
    ensures var v := Next(sha, norm, w, a, exclusive);
      Sound(v) && v.r.db.tables.posts == w.r.db.tables.posts
  {
    hide Exec, OneEach, PostsKeyed, RowsKeyed, NoneBefore;
    if a.pid in w.calls && a.commits {
      var x := PostCaptured(w.calls[a.pid].postId, w.calls[a.pid].url, a.evidence);
      if Exec(sha, norm, w.r, x).Some? {
        ExecSound(sha, norm, w.r, x);
      }
    }
  }

  lemma SoundNext(sha: Digest, norm: UrlNorm, w: World, a: Action, exclusive: bool)
    requires Sound(w)
    ensures Sound(Next(sha, norm, w, a, exclusive))
  {
    hide Exec, Begin, OneEach, PostsKeyed, RowsKeyed, NoneBefore;
    match a
    case Do(m) => DoSound(sha, norm, w, m, exclusive);
    case StartIngest(_, _, _) => StartSound(sha, norm, w, a, exclusive);
    case FinishIngest(_, _, _, _) => FinishSound(sha, norm, w, a, exclusive);
    case DropIngest(_) =>
  }

  lemma SoundEmpty()
    ensures Sound(World(Record(EMPTY, map[]), map[]))
  {
  }

  lemma {:induction false} SoundRun(sha: Digest, norm: UrlNorm, actions: seq<Action>, exclusive: bool)
    ensures Sound(RunHooks(sha, norm, actions, exclusive))
  {
    hide Next, Sound;
    if actions == [] {
      SoundEmpty();
    } else {
      var n := |actions| - 1;
      SoundRun(sha, norm, actions[..n], exclusive);
      SoundNext(sha, norm, RunHooks(sha, norm, actions[..n], exclusive), actions[n], exclusive);
    }
  }

  /**
   For any calls overlapping, with crashes between and inside their transactions and
   every other transaction, attachments too, around them: a URL has at most one post,
   and one post.created entry if it has one.
   */
  lemma OnePostPerUrl(sha: Digest, norm: UrlNorm, actions: seq<Action>, exclusive: bool, url: string)
    ensures var db := RunHooks(sha, norm, actions, exclusive).r.db;
      && (forall i, j :: IsPost(db, i, url) && IsPost(db, j, url) ==> i == j)
      && Creations(db.log, url) == if exists id :: IsPost(db, id, url) then 1 else 0
  {
    hide RunHooks, Creations, NoneBefore;
    SoundRun(sha, norm, actions, exclusive);
    assert OneCreation(RunHooks(sha, norm, actions, exclusive).r.db, url);
  }

  // ----- All of a post's evidence or none -----

  ghost predicate Whole(t: Tables, id: string) {
    Bare(t, ThePost(id)) || FullEvidence(t, ThePost(id))
  }

  ghost predicate AllWhole(t: Tables) {
    forall id :: Whole(t, id)
  }

  /** A post with full evidence keeps its rows. */
  ghost predicate Kept(t: Tables, u: Tables, id: string) {
    FullEvidence(t, ThePost(id)) ==>
      && CaptureRows(u, ThePost(id)) == CaptureRows(t, ThePost(id))
      && RequestRows(u, ThePost(id)) == RequestRows(t, ThePost(id))
  }

  /** If the step stores a capture, it finds its post without one. */
  ghost predicate TimelyStep(sha: Digest, w: World, a: Action) {
    a.FinishIngest? && a.pid in w.calls && a.commits ==>
      var c := w.calls[a.pid];
      StoreEvidence(sha, w.r, ThePost(c.postId), c.url, a.evidence).Some? ==> Bare(w.r.db.tables, ThePost(c.postId))
  }

  /** Every second transaction that commits is in time, as if it looked again under the lock. */
  ghost predicate Timely(sha: Digest, norm: UrlNorm, actions: seq<Action>, exclusive: bool) {
    actions != [] ==>
      var before := actions[..|actions| - 1];
      && Timely(sha, norm, before, exclusive)
      && TimelyStep(sha, RunHooks(sha, norm, before, exclusive), actions[|actions| - 1])
  }

  lemma WholeKept(t: Tables, u: Tables, id: string)
    requires SameEvidence(t, u, "post")
    ensures (Whole(t, id) ==> Whole(u, id)) && Kept(t, u, id)
  {
    hide SameEvidence, CaptureRows, RequestRows, FullEvidence, Bare;
    SameRows(t, u, ThePost(id));
    SameFull(t, u, ThePost(id));
  }

  /** A stored capture, for its own post and for every other. */
  lemma StoredWhole(sha: Digest, r: Record, id: string, url: string, e: Evidence, k: string)
    requires StoreEvidence(sha, r, ThePost(id), url, e).Some? && Whole(r.db.tables, k)
    ensures var t, u := r.db.tables, StoreEvidence(sha, r, ThePost(id), url, e).value.db.tables;
      Whole(u, k) && Kept(t, u, k) <==> k != id || Bare(t, ThePost(id))
  {
    hide StoreEvidence, ArtifactRows, CaptureRows, FullEvidence, KeepsArtifacts;
    var t, u := r.db.tables, StoreEvidence(sha, r, ThePost(id), url, e).value.db.tables;
    StoreEvidenceExact(sha, r, ThePost(id), url, e, ThePost(k));
    if k == id {
      StoreEvidenceOnce(sha, r, ThePost(id), url, e);
      FullIsNotBare(t, ThePost(id));
    } else {
      RowsKeepFull(t, u, ThePost(k));
    }
  }

  lemma FinishIs(sha: Digest, norm: UrlNorm, w: World, a: Action, exclusive: bool)
    requires a.FinishIngest? && a.pid in w.calls
    ensures var s := StoreEvidence(sha, w.r, ThePost(w.calls[a.pid].postId), w.calls[a.pid].url, a.evidence);
      && Next(sha, norm, w, a, exclusive).r.db == (if a.commits && s.Some? then s.value.db else w.r.db)
      && Next(sha, norm, w, a, exclusive).calls == w.calls - {a.pid}
  {
  }

  lemma NoCall(sha: Digest, norm: UrlNorm, w: World, a: Action, exclusive: bool)
    requires a.FinishIngest? && a.pid !in w.calls
    ensures Next(sha, norm, w, a, exclusive) == w
  {
  }

  lemma SelfKept(t: Tables, id: string)
    ensures Kept(t, t, id)
  {
  }

  lemma FinishWhole(sha: Digest, norm: UrlNorm, w: World, a: Action, exclusive: bool)
    requires AllWhole(w.r.db.tables) && a.FinishIngest?
    ensures var t, u := w.r.db.tables, Next(sha, norm, w, a, exclusive).r.db.tables;
      (forall id :: Whole(u, id) && Kept(t, u, id)) <==> TimelyStep(sha, w, a)
  {
    hide StoreEvidence, Whole, Kept, Bare, Next;
    var t, u := w.r.db.tables, Next(sha, norm, w, a, exclusive).r.db.tables;
    if a.pid in w.calls {
      var c := w.calls[a.pid];
      FinishIs(sha, norm, w, a, exclusive);
      forall id ensures Whole(t, id) && Kept(t, t, id) {
        SelfKept(t, id);
      }
      if a.commits && StoreEvidence(sha, w.r, ThePost(c.postId), c.url, a.evidence).Some? {
        forall id ensures Whole(u, id) && Kept(t, u, id) <==> id != c.postId || Bare(t, ThePost(c.postId)) {
          StoredWhole(sha, w.r, c.postId, c.url, a.evidence, id);
        }
        assert Whole(u, c.postId) && Kept(t, u, c.postId) <==> Bare(t, ThePost(c.postId));
      }
    } else {
      NoCall(sha, norm, w, a, exclusive);
      forall id ensures Whole(t, id) && Kept(t, t, id) {
        SelfKept(t, id);
      }
    }
  }

  lemma OtherEvidence(sha: Digest, norm: UrlNorm, w: World, a: Action, exclusive: bool)
    requires Sound(w) && !a.FinishIngest?
    ensures SameEvidence(w.r.db.tables, Next(sha, norm, w, a, exclusive).r.db.tables, "post")
  {
    hide Sound, SameEvidence, KeepsPosts, StartsBare, Begin, Exec;
    match a
    case Do(m) => DoSound(sha, norm, w, m, exclusive);
    case StartIngest(_, _, _) => StartSound(sha, norm, w, a, exclusive);
    case DropIngest(_) => SameTables(w.r.db.tables, w.r.db.tables, "post");
  }

  /** A step keeps every post's evidence whole and final exactly when it is timely. */
  lemma StepExact(sha: Digest, norm: UrlNorm, w: World, a: Action, exclusive: bool)
    requires Sound(w) && AllWhole(w.r.db.tables)
    ensures var t, u := w.r.db.tables, Next(sha, norm, w, a, exclusive).r.db.tables;
      (forall id :: Whole(u, id) && Kept(t, u, id)) <==> TimelyStep(sha, w, a)
  {
    hide Sound, Whole, Kept, SameEvidence, KeepsPosts, StartsBare;
    if a.FinishIngest? {
      FinishWhole(sha, norm, w, a, exclusive);
    } else {
      hide Next;
      var t, u := w.r.db.tables, Next(sha, norm, w, a, exclusive).r.db.tables;
      OtherEvidence(sha, norm, w, a, exclusive);
      forall id ensures Whole(u, id) && Kept(t, u, id) {
        assert Whole(t, id);
        WholeKept(t, u, id);
      }
    }
  }

  lemma EmptyWhole()
    ensures AllWhole(EMPTY.tables)
  {
  }

  lemma {:induction false} TimelyWhole(sha: Digest, norm: UrlNorm, actions: seq<Action>, exclusive: bool)
    requires Timely(sha, norm, actions, exclusive)
    ensures AllWhole(RunHooks(sha, norm, actions, exclusive).r.db.tables)
  {
    hide Whole, Kept, Next, TimelyStep, Sound;
    if actions == [] {
      EmptyWhole();
    } else {
      var before := actions[..|actions| - 1];
      TimelyWhole(sha, norm, before, exclusive);
      SoundRun(sha, norm, before, exclusive);
      StepExact(sha, norm, RunHooks(sha, norm, before, exclusive), actions[|actions| - 1], exclusive);
    }
  }

  /** Every step of the run left every post's evidence whole, and where it was full as it was. */
  ghost predicate Steady(sha: Digest, norm: UrlNorm, actions: seq<Action>, exclusive: bool) {
    actions != [] ==>
      var before := actions[..|actions| - 1];
      var t := RunHooks(sha, norm, before, exclusive).r.db.tables;
      var u := RunHooks(sha, norm, actions, exclusive).r.db.tables;
      Steady(sha, norm, before, exclusive) && forall id :: Whole(u, id) && Kept(t, u, id)
  }

  /**
   The exact condition, for any number of overlapping calls: posts have full evidence or
   none, and keep it once full, throughout a run exactly when no call of the run stores
   its capture late.
   */
  lemma {:induction false} TimelyExact(sha: Digest, norm: UrlNorm, actions: seq<Action>, exclusive: bool)
    ensures Steady(sha, norm, actions, exclusive) <==> Timely(sha, norm, actions, exclusive)
  {
    hide Whole, Kept, Next, TimelyStep, Sound;
    if actions != [] {
      var before, a := actions[..|actions| - 1], actions[|actions| - 1];
      TimelyExact(sha, norm, before, exclusive);
      if Timely(sha, norm, before, exclusive) {
        TimelyWhole(sha, norm, before, exclusive);
        SoundRun(sha, norm, before, exclusive);
        StepExact(sha, norm, RunHooks(sha, norm, before, exclusive), a, exclusive);
      }
    }
  }

  // ----- Calls that do not overlap are in time -----

  /** The call at work, if any, is for a post that has no capture yet. */
  ghost predicate CallsOwed(w: World) {
    && (forall p, q :: p in w.calls && q in w.calls ==> p == q)
    && forall p <- w.calls :: Bare(w.r.db.tables, ThePost(w.calls[p].postId))
  }

  lemma NoArtifacts(t: Tables, id: string)
    requires AllWhole(t) && ArtifactRows(t, ThePost(id)) == {}
    ensures Bare(t, ThePost(id))
  {
    assert Whole(t, id);
    FullIsNotBare(t, ThePost(id));
  }

  lemma BareKept(w: World, v: World, p: nat)
    requires CallsOwed(w) && p in w.calls && p in v.calls && v.calls[p] == w.calls[p]
    requires SameEvidence(w.r.db.tables, v.r.db.tables, "post")
    ensures Bare(v.r.db.tables, ThePost(v.calls[p].postId))
  {
    hide SameEvidence, Bare, FullEvidence;
    SameFull(w.r.db.tables, v.r.db.tables, ThePost(v.calls[p].postId));
  }

  lemma OwedNext(sha: Digest, norm: UrlNorm, w: World, a: Action)
    requires Sound(w) && CallsOwed(w) && AllWhole(Next(sha, norm, w, a, true).r.db.tables)
    ensures CallsOwed(Next(sha, norm, w, a, true))
  {
    hide Sound, Bare, SameEvidence, AllWhole, KeepsPosts, ArtifactRows, Exec, Begin;
    var v := Next(sha, norm, w, a, true);
    match a
    case Do(m) =>
      DoSound(sha, norm, w, m, true);
      forall p | p in v.calls ensures Bare(v.r.db.tables, ThePost(v.calls[p].postId)) {
        BareKept(w, v, p);
      }
    case StartIngest(pid, _, _) =>
      StartSound(sha, norm, w, a, true);
      forall p | p in v.calls ensures Bare(v.r.db.tables, ThePost(v.calls[p].postId)) {
        if p in w.calls {
          BareKept(w, v, p);
        } else if ArtifactRows(v.r.db.tables, ThePost(v.calls[p].postId)) == {} {
          NoArtifacts(v.r.db.tables, v.calls[p].postId);
        }
      }
    case FinishIngest(pid, _, _, _) =>
    case DropIngest(_) =>
  }

  /** Calls that never overlap are never late, attachments or not. */
  lemma {:induction false} ExclusiveTimely(sha: Digest, norm: UrlNorm, actions: seq<Action>)
    ensures Timely(sha, norm, actions, true) && CallsOwed(RunHooks(sha, norm, actions, true))
  {
    hide Sound, Next, AllWhole, Bare;
    if actions != [] {
      var before := actions[..|actions| - 1];
      ExclusiveTimely(sha, norm, before);
      SoundRun(sha, norm, before, true);
      TimelyWhole(sha, norm, actions, true);
      OwedNext(sha, norm, RunHooks(sha, norm, before, true), actions[|actions| - 1]);
    }
  }

  // ----- A call without a crash -----

  /**
   A call that nothing interrupts is its first step followed by its second: the theorems
   about runs speak of it, and of the post that it reports.
   */
  lemma IngestIsRun(sha: Digest, norm: UrlNorm, w: World, pid: nat, post: Post, capture: bool,
                    result: Option<Evidence>, exclusive: bool)
    requires pid !in w.calls && (exclusive ==> w.calls == map[])
    ensures var v := Next(sha, norm, w, StartIngest(pid, post, capture), exclusive);
      var second := if result.Some? then FinishIngest(pid, result.value, true, 0) else DropIngest(pid);
      var u := Next(sha, norm, v, second, exclusive);
      var (r, ending) := Ingest(sha, w.r, post, capture, result);
      && u.r == r && u.calls == w.calls
      && (ending.Done? ==> pid in v.calls && v.calls[pid] == Call(ending.postId, post.url))
  {
    hide StoreEvidence, FindPost;
    var v := Next(sha, norm, w, StartIngest(pid, post, capture), exclusive);
    if pid in v.calls && result.Some? {
      PostCapturedIs(sha, norm, v.r, v.calls[pid].postId, v.calls[pid].url, result.value);
    }
  }

  // ----- What a caller gets -----

  /**
   As long as no call stores its capture late, whatever overlaps and whatever is attached:
   a post has three captured artifacts of the three kinds and one snapshot request, or
   none of either.
   */
  lemma IngestAllOrNothing(sha: Digest, norm: UrlNorm, actions: seq<Action>, exclusive: bool, id: string)
    requires Timely(sha, norm, actions, exclusive)
    ensures var t := RunHooks(sha, norm, actions, exclusive).r.db.tables;
      Bare(t, ThePost(id)) != FullEvidence(t, ThePost(id))
  {
    hide Timely, RunHooks, Bare, FullEvidence;
    TimelyWhole(sha, norm, actions, exclusive);
    var t := RunHooks(sha, norm, actions, exclusive).r.db.tables;
    assert Whole(t, id);
    FullIsNotBare(t, ThePost(id));
  }

  lemma OnlyWhereBare(sha: Digest, r: Record, who: Subject, url: string, e: Evidence)
    requires StoreEvidence(sha, r, who, url, e).Some?
    ensures IsEvidence(StoreEvidence(sha, r, who, url, e).value.db.tables, who, e.artifactIds, e.snapshotId)
            <==> Bare(r.db.tables, who)
  {
    hide StoreEvidence;
    StoreEvidenceExact(sha, r, who, url, e, who);
    var t, u := r.db.tables, StoreEvidence(sha, r, who, url, e).value.db.tables;
    if IsEvidence(u, who, e.artifactIds, e.snapshotId) {
      assert forall id :: id in CaptureRows(t, who) ==> id in t.artifacts && id in Ids(e);
      assert forall id :: id in RequestRows(t, who) ==> id in t.snapshots && id == e.snapshotId;
    }
  }

  /**
   A call whose second transaction commits leaves its post with exactly the evidence it
   stored if and only if the post had no capture at that moment, as is always so when
   calls do not overlap.
   */
  lemma FinishedCallCaptures(sha: Digest, norm: UrlNorm, actions: seq<Action>, exclusive: bool, a: Action)
    requires var w := RunHooks(sha, norm, actions, exclusive);
      && a.FinishIngest? && a.pid in w.calls && a.commits
      && StoreEvidence(sha, w.r, ThePost(w.calls[a.pid].postId), w.calls[a.pid].url, a.evidence).Some?
    ensures var w := RunHooks(sha, norm, actions, exclusive);
      var who, e := ThePost(w.calls[a.pid].postId), a.evidence;
      && (IsEvidence(Next(sha, norm, w, a, exclusive).r.db.tables, who, e.artifactIds, e.snapshotId)
          <==> Bare(w.r.db.tables, who))
      && (exclusive ==> Bare(w.r.db.tables, who))
  {
    hide Next, RunHooks, StoreEvidence, IsEvidence, Timely, Bare;
    var w := RunHooks(sha, norm, actions, exclusive);
    FinishIs(sha, norm, w, a, exclusive);
    OnlyWhereBare(sha, w.r, ThePost(w.calls[a.pid].postId), w.calls[a.pid].url, a.evidence);
    if exclusive {
      ExclusiveTimely(sha, norm, actions);
    }
  }

  // ----- Once a post has an artifact -----

  /** Posts and artifacts are never lost or changed. */
  ghost predicate Grows(t: Tables, u: Tables) {
    KeepsPosts(t, u) && KeepsArtifacts(t, u)
  }

  lemma StepGrows(sha: Digest, norm: UrlNorm, w: World, a: Action, exclusive: bool)
    requires Sound(w)
    ensures Grows(w.r.db.tables, Next(sha, norm, w, a, exclusive).r.db.tables)
  {
    hide Sound, Exec, Begin, StoreEvidence, StartsBare;
    match a
    case Do(m) => DoSound(sha, norm, w, m, exclusive);
    case StartIngest(_, _, _) => StartSound(sha, norm, w, a, exclusive);
    case FinishIngest(pid, e, commits, _) =>
      FinishSound(sha, norm, w, a, exclusive);
      if pid in w.calls {
        var c := w.calls[pid];
        FinishIs(sha, norm, w, a, exclusive);
        if commits && StoreEvidence(sha, w.r, ThePost(c.postId), c.url, e).Some? {
          StoreEvidenceExact(sha, w.r, ThePost(c.postId), c.url, e, ThePost(c.postId));
        }
      }
    case DropIngest(_) =>
  }

  lemma {:induction false} RunGrows(sha: Digest, norm: UrlNorm, actions: seq<Action>, more: seq<Action>,
                                    exclusive: bool)
    ensures Grows(RunHooks(sha, norm, actions, exclusive).r.db.tables,
                  RunHooks(sha, norm, actions + more, exclusive).r.db.tables)
  {
    hide Next, Sound;
    if more == [] {
      assert actions + more == actions;
    } else {
      var n := |more| - 1;
      assert (actions + more)[..|actions + more| - 1] == actions + more[..n];
      RunGrows(sha, norm, actions, more[..n], exclusive);
      SoundRun(sha, norm, actions + more[..n], exclusive);
      StepGrows(sha, norm, RunHooks(sha, norm, actions + more[..n], exclusive), more[n], exclusive);
    }
  }

  lemma StillHasArtifacts(t: Tables, u: Tables, who: Subject)
    requires KeepsArtifacts(t, u) && ArtifactRows(t, who) != {}
    ensures ArtifactRows(u, who) != {}
  {
    var id :| id in ArtifactRows(t, who);
    assert id in ArtifactRows(u, who);
  }

  /**
   A post that has one artifact, captured or attached, is done with: after any further
   run, calls overlapping or not, every call of its URL is a duplicate and writes nothing.
   */
  lemma DuplicateForever(sha: Digest, norm: UrlNorm, actions: seq<Action>, more: seq<Action>, exclusive: bool,
                         id: string, post: Post, capture: bool)
    requires var db := RunHooks(sha, norm, actions, exclusive).r.db;
      IsPost(db, id, post.url) && ArtifactRows(db.tables, ThePost(id)) != {}
    ensures var db := RunHooks(sha, norm, actions + more, exclusive).r.db;
      Begin(db, post, capture) == (db, Duplicate(id))
  {
    hide RunHooks, Begin, ArtifactRows, KeepsArtifacts, PostsKeyed, OneEach, NoneBefore, CallsKnown;
    RunGrows(sha, norm, actions, more, exclusive);
    SoundRun(sha, norm, actions + more, exclusive);
    var db, d := RunHooks(sha, norm, actions, exclusive).r.db, RunHooks(sha, norm, actions + more, exclusive).r.db;
    StillHasArtifacts(db.tables, d.tables, ThePost(id));
    ResumeExact(d, post, capture, id);
  }

  /** A captured post keeps its rows through every timely step, and every call of its URL is a duplicate. */
  lemma CapturedPostIsFinal(sha: Digest, norm: UrlNorm, actions: seq<Action>, a: Action, exclusive: bool, id: string,
                            post: Post, capture: bool)
    requires Timely(sha, norm, actions + [a], exclusive)
    requires var db := RunHooks(sha, norm, actions, exclusive).r.db;
      IsPost(db, id, post.url) && FullEvidence(db.tables, ThePost(id))
    ensures var db := RunHooks(sha, norm, actions, exclusive).r.db;
      var d := RunHooks(sha, norm, actions + [a], exclusive).r.db;
      && CaptureRows(d.tables, ThePost(id)) == CaptureRows(db.tables, ThePost(id))
      && RequestRows(d.tables, ThePost(id)) == RequestRows(db.tables, ThePost(id))
      && Begin(d, post, capture) == (d, Duplicate(id))
  {
    hide Next, Sound, Begin, IsPost, TimelyStep, Whole, CaptureRows, RequestRows, FullEvidence;
    assert (actions + [a])[..|actions|] == actions;
    var w := RunHooks(sha, norm, actions, exclusive);
    TimelyWhole(sha, norm, actions, exclusive);
    SoundRun(sha, norm, actions, exclusive);
    StepExact(sha, norm, w, a, exclusive);
    assert Kept(w.r.db.tables, RunHooks(sha, norm, actions + [a], exclusive).r.db.tables, id);
    FullIsNotBare(w.r.db.tables, ThePost(id));
    DuplicateForever(sha, norm, actions, [a], exclusive, id, post, capture);
  }

  // ----- A file attached before the capture -----

  /** The post has a file but no capture, and no call for it is at work. */
  ghost predicate Blocked(w: World, id: string) {
    && id in w.r.db.tables.posts && Bare(w.r.db.tables, ThePost(id)) && ArtifactRows(w.r.db.tables, ThePost(id)) != {}
    && forall p <- w.calls :: w.calls[p].postId != id
  }

  lemma BlockedEvidence(w: World, v: World, id: string)
    requires Blocked(w, id) && SameEvidence(w.r.db.tables, v.r.db.tables, "post")
    requires KeepsPosts(w.r.db.tables, v.r.db.tables)
    ensures id in v.r.db.tables.posts && Bare(v.r.db.tables, ThePost(id))
    ensures ArtifactRows(v.r.db.tables, ThePost(id)) != {}
  {
    hide SameEvidence, Bare, ArtifactRows, FullEvidence, KeepsArtifacts;
    SameRows(w.r.db.tables, v.r.db.tables, ThePost(id));
    SameFull(w.r.db.tables, v.r.db.tables, ThePost(id));
    StillHasArtifacts(w.r.db.tables, v.r.db.tables, ThePost(id));
  }

  lemma StartElsewhere(db: Db, post: Post, id: string)
    requires id in db.tables.posts && ArtifactRows(db.tables, ThePost(id)) != {}
    ensures var start := Begin(db, post, true).1; start.Begun? ==> start.postId != id
  {
  }

  lemma SamePosts(t: Tables, u: Tables)
    requires u.posts == t.posts
    ensures KeepsPosts(t, u)
  {
  }

  lemma BlockedStored(sha: Digest, r: Record, c: Call, e: Evidence, id: string)
    requires StoreEvidence(sha, r, ThePost(c.postId), c.url, e).Some? && c.postId != id
    ensures var t, u := r.db.tables, StoreEvidence(sha, r, ThePost(c.postId), c.url, e).value.db.tables;
      && u.posts == t.posts && ArtifactRows(u, ThePost(id)) == ArtifactRows(t, ThePost(id))
      && (Bare(u, ThePost(id)) <==> Bare(t, ThePost(id)))
  {
    hide StoreEvidence, ArtifactRows, CaptureRows, RequestRows;
    StoreEvidenceExact(sha, r, ThePost(c.postId), c.url, e, ThePost(id));
  }

  lemma BlockedNext(sha: Digest, norm: UrlNorm, w: World, a: Action, exclusive: bool, id: string)
    requires Sound(w) && Blocked(w, id)
    ensures Blocked(Next(sha, norm, w, a, exclusive), id)
  {
    hide Sound, Exec, Begin, StoreEvidence, Bare, ArtifactRows, SameEvidence, StartsBare, KeepsPosts;
    var v := Next(sha, norm, w, a, exclusive);
    match a
    case Do(m) =>
      DoSound(sha, norm, w, m, exclusive);
      SamePosts(w.r.db.tables, v.r.db.tables);
      BlockedEvidence(w, v, id);
    case StartIngest(_, post, _) =>
      StartSound(sha, norm, w, a, exclusive);
      BlockedEvidence(w, v, id);
      StartElsewhere(w.r.db, post, id);
    case FinishIngest(pid, e, commits, _) =>
      if pid in w.calls {
        var c := w.calls[pid];
        FinishIs(sha, norm, w, a, exclusive);
        if commits && StoreEvidence(sha, w.r, ThePost(c.postId), c.url, e).Some? {
          BlockedStored(sha, w.r, c, e, id);
        }
      }
    case DropIngest(_) =>
  }

  lemma {:induction false} BlockedRun(sha: Digest, norm: UrlNorm, actions: seq<Action>, more: seq<Action>,
                                      exclusive: bool, id: string)
    requires Blocked(RunHooks(sha, norm, actions, exclusive), id)
    ensures Blocked(RunHooks(sha, norm, actions + more, exclusive), id)
  {
    hide Next, Sound, Blocked;
    if more == [] {
      assert actions + more == actions;
    } else {
      var n := |more| - 1;
      assert (actions + more)[..|actions + more| - 1] == actions + more[..n];
      BlockedRun(sha, norm, actions, more[..n], exclusive, id);
      SoundRun(sha, norm, actions + more[..n], exclusive);
      BlockedNext(sha, norm, RunHooks(sha, norm, actions + more[..n], exclusive), more[n], exclusive, id);
    }
  }

  /** The step attaches a file to the post and commits. */
  ghost predicate Attaches(sha: Digest, norm: UrlNorm, w: World, a: Action, id: string) {
    && a.Do? && a.move.commits && a.move.txn.Attached? && id != "" && a.move.txn.toPost == Some(id)
    && Exec(sha, norm, w.r, a.move.txn).Some?
  }

  lemma AttachedRows(sha: Digest, norm: UrlNorm, w: World, a: Action, exclusive: bool, id: string)
    requires Sound(w) && Attaches(sha, norm, w, a, id)
    ensures var v := Next(sha, norm, w, a, exclusive);
      && id in v.r.db.tables.posts && ArtifactRows(v.r.db.tables, ThePost(id)) != {} && v.calls == w.calls
      && (Bare(w.r.db.tables, ThePost(id)) ==> Bare(v.r.db.tables, ThePost(id)))
      && KeepsPosts(w.r.db.tables, v.r.db.tables)
  {
    hide Sound, SameEvidence, Bare, FullEvidence, CaptureRows;
    var v := Next(sha, norm, w, a, exclusive);
    DoSound(sha, norm, w, a.move, exclusive);
    SameFull(w.r.db.tables, v.r.db.tables, ThePost(id));
    assert a.move.txn.blob.id in ArtifactRows(v.r.db.tables, ThePost(id));
  }

  /**
   A file attached to a post: after any further run, overlapping or not, every call of
   its URL is a duplicate; and if the post had no capture and no call for it was at work
   when the file came, it has none after any further run.
   */
  lemma AttachmentBlocksCapture(sha: Digest, norm: UrlNorm, actions: seq<Action>, a: Action, more: seq<Action>,
                                exclusive: bool, id: string, post: Post, capture: bool)
    requires var w := RunHooks(sha, norm, actions, exclusive);
      IsPost(w.r.db, id, post.url) && Attaches(sha, norm, w, a, id)
    ensures var w, v := RunHooks(sha, norm, actions, exclusive), RunHooks(sha, norm, actions + [a] + more, exclusive);
      && Begin(v.r.db, post, capture) == (v.r.db, Duplicate(id))
      && (Bare(w.r.db.tables, ThePost(id)) && (forall p <- w.calls :: w.calls[p].postId != id) ==>
            Bare(v.r.db.tables, ThePost(id)))
  {
    hide Sound, Next, Attaches, Bare, ArtifactRows, Begin;
    var w := RunHooks(sha, norm, actions, exclusive);
    SoundRun(sha, norm, actions, exclusive);
    AttachedRows(sha, norm, w, a, exclusive, id);
    assert (actions + [a])[..|actions|] == actions;
    assert RunHooks(sha, norm, actions + [a], exclusive) == Next(sha, norm, w, a, exclusive);
    DuplicateForever(sha, norm, actions + [a], more, exclusive, id, post, capture);
    if Bare(w.r.db.tables, ThePost(id)) && forall p <- w.calls :: w.calls[p].postId != id {
      BlockedRun(sha, norm, actions + [a], more, exclusive, id);
    }
  }

  /** A call at work when the file comes still captures its post: only calls that start later are blocked. */
  lemma InFlightStillCaptures(sha: Digest, norm: UrlNorm, actions: seq<Action>, a: Action, finish: Action,
                              exclusive: bool, id: string)
    requires var w := RunHooks(sha, norm, actions, exclusive);
      && Attaches(sha, norm, w, a, id) && Bare(w.r.db.tables, ThePost(id))
      && finish.FinishIngest? && finish.commits && finish.pid in w.calls && w.calls[finish.pid].postId == id
      && var v := Next(sha, norm, w, a, exclusive);
      StoreEvidence(sha, v.r, ThePost(id), w.calls[finish.pid].url, finish.evidence).Some?
    ensures FullEvidence(RunHooks(sha, norm, actions + [a] + [finish], exclusive).r.db.tables, ThePost(id))
  {
    hide Sound, Next, Attaches, Bare, ArtifactRows, StoreEvidence, IsEvidence;
    var w := RunHooks(sha, norm, actions, exclusive);
    SoundRun(sha, norm, actions, exclusive);
    AttachedRows(sha, norm, w, a, exclusive, id);
    var v := RunHooks(sha, norm, actions + [a], exclusive);
    assert (actions + [a])[..|actions|] == actions && (actions + [a] + [finish])[..|actions| + 1] == actions + [a];
    assert v == Next(sha, norm, w, a, exclusive);
    FinishedCallCaptures(sha, norm, actions + [a], exclusive, finish);
  }

  // ----- Two calls that overlap -----

  const POST := Post("p", "linkedin", None, "u", "", "en", "", FIRST, false, "")

  /** Both calls begin before either stores its capture: the second finds the first one's post without artifacts. */
  const OVERLAP: seq<Action> :=
    [StartIngest(0, POST, true), StartIngest(1, POST.(id := "q"), true),
     FinishIngest(0, FIRST_FETCH, true, 0), FinishIngest(1, SECOND_FETCH, true, 0)]

  lemma FirstBegins(sha: Digest, norm: UrlNorm)
    ensures RunHooks(sha, norm, OVERLAP[..1], false) ==
            World(Record(Log(EMPTY, PutPost(EMPTY.tables, POST), PostCreated(POST)), map[]), map[0 := Call("p", "u")])
  {
    assert OVERLAP[..1][..0] == [];
    assert Begin(EMPTY, POST, true) == (AddPost(EMPTY, POST).value, Begun("p", true)) by {
      assert FindPost(EMPTY, "u").None?;
    }
  }

  lemma BothBegin(sha: Digest, norm: UrlNorm)
    ensures var w := RunHooks(sha, norm, OVERLAP[..2], false);
      && w.calls == map[0 := Call("p", "u"), 1 := Call("p", "u")]
      && w.r.db.tables == PutPost(EMPTY.tables, POST)
  {
    FirstBegins(sha, norm);
    var w := RunHooks(sha, norm, OVERLAP[..1], false);
    assert OVERLAP[..2][..1] == OVERLAP[..1];
    assert PostsKeyed(w.r.db);
    ResumeExact(w.r.db, POST.(id := "q"), true, "p");
  }

  /** A committed second transaction, by the rows it adds. */
  ghost predicate Stores(w: World, v: World, pid: nat, id: string, e: Evidence) {
    var t, u := w.r.db.tables, v.r.db.tables;
    && v.calls == w.calls - {pid}
    && u.artifacts.Keys == t.artifacts.Keys + Ids(e) && u.snapshots.Keys == t.snapshots.Keys + {e.snapshotId}
    && CaptureRows(u, ThePost(id)) == CaptureRows(t, ThePost(id)) + Ids(e)
    && RequestRows(u, ThePost(id)) == RequestRows(t, ThePost(id)) + {e.snapshotId}
  }

  lemma FinishStores(sha: Digest, norm: UrlNorm, w: World, a: Action)
    requires a.FinishIngest? && a.pid in w.calls && a.commits && Fresh(w.r.db.tables, a.evidence)
    ensures Stores(w, Next(sha, norm, w, a, false), a.pid, w.calls[a.pid].postId, a.evidence)
  {
    hide Next, StoreEvidence, ArtifactRows, CaptureRows, RequestRows, KeepsArtifacts, IsEvidence, Ids, Fresh;
    var c := w.calls[a.pid];
    FinishIs(sha, norm, w, a, false);
    StoreEvidenceFresh(sha, w.r, ThePost(c.postId), c.url, a.evidence);
    StoreEvidenceKeys(sha, w.r, ThePost(c.postId), c.url, a.evidence);
    StoreEvidenceExact(sha, w.r, ThePost(c.postId), c.url, a.evidence, ThePost(c.postId));
  }

  /** When both commit, one post has six captured artifacts and two archive requests. */
  lemma OverlapCapturesTwice(sha: Digest, norm: UrlNorm)
    ensures var db := RunHooks(sha, norm, OVERLAP, false).r.db;
      && CaptureRows(db.tables, ThePost("p")) == Ids(FIRST_FETCH) + Ids(SECOND_FETCH)
      && RequestRows(db.tables, ThePost("p")) == {FIRST_FETCH.snapshotId, SECOND_FETCH.snapshotId}
  {
    hide Next, CaptureRows, RequestRows, FIRST_FETCH, SECOND_FETCH, Ids, Fresh;
    assert OVERLAP[..3][..2] == OVERLAP[..2] && OVERLAP[..4][..3] == OVERLAP[..3] && OVERLAP[..4] == OVERLAP;
    BothBegin(sha, norm);
    var w, v := RunHooks(sha, norm, OVERLAP[..2], false), RunHooks(sha, norm, OVERLAP[..3], false);
    EmptyRows(w.r.db.tables, ThePost("p"));
    FinishStores(sha, norm, w, OVERLAP[2]);
    SecondFresh(v.r.db.tables);
    FinishStores(sha, norm, v, OVERLAP[3]);
  }
}
