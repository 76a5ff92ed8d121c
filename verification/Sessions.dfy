/**
 A writing session over the record: what one transaction sees, what is committed,
 and the inserts whose unique columns can refuse a row. `session_scope` commits on
 exit and rolls back on any exception, so a refused insert undoes the transaction.
 */
module Sessions {
  import opened Wrappers
  import opened Database

  /** INSERT into posts, logged; None is the IntegrityError. */
  function AddPost(db: Db, p: Post): Option<Db> {
    if p.id in db.tables.posts
       || (exists id | id in db.tables.posts :: db.tables.posts[id].url == p.url)
       || (p.externalId.Some? && exists id | id in db.tables.posts ::
             db.tables.posts[id].platform == p.platform && db.tables.posts[id].externalId == p.externalId)
    then None
    else Some(Log(db, PutPost(db.tables, p), PostCreated(p)))
  }

  function AddMention(db: Db, m: Mention): Option<Db> {
    if m.id in db.tables.mentions || exists id | id in db.tables.mentions :: db.tables.mentions[id].url == m.url
    then None
    else Some(Log(db, PutMention(db.tables, m), MentionCreated(m)))
  }

  function AddArtifact(db: Db, how: ArtifactEvent, a: Artifact): Option<Db> {
    if a.id in db.tables.artifacts then None
    else Some(Log(db, PutArtifact(db.tables, a), ArtifactLogged(how, a)))
  }

  function AddSnapshot(db: Db, what: SnapshotEvent, s: Snapshot): Option<Db> {
    if s.id in db.tables.snapshots then None
    else Some(Log(db, PutSnapshot(db.tables, s), SnapshotLogged(what, s)))
  }

  /** What a transaction leaves: its result, or the database as it was. */
  function Committed(before: Db, after: Option<Db>): Db {
    after.GetOr(before)
  }

  /** Every insert that succeeds is one the log replays. */
  lemma AddsFaithful(db: Db)
    requires Faithful(db)
    ensures forall p :: AddPost(db, p).Some? ==> Faithful(AddPost(db, p).value)
    ensures forall m :: AddMention(db, m).Some? ==> Faithful(AddMention(db, m).value)
    ensures forall how, a :: AddArtifact(db, how, a).Some? ==> Faithful(AddArtifact(db, how, a).value)
    ensures forall what, s :: AddSnapshot(db, what, s).Some? ==> Faithful(AddSnapshot(db, what, s).value)
  {
    forall p | AddPost(db, p).Some? ensures Faithful(AddPost(db, p).value) {
      LogPost(db, p);
    }
    forall m | AddMention(db, m).Some? ensures Faithful(AddMention(db, m).value) {
      LogMention(db, m, MentionCreated(m));
    }
    forall how, a | AddArtifact(db, how, a).Some? ensures Faithful(AddArtifact(db, how, a).value) {
      LogArtifact(db, a, how);
    }
    forall what, s | AddSnapshot(db, what, s).Some? ensures Faithful(AddSnapshot(db, what, s).value) {
      LogSnapshot(db, s, SnapshotLogged(what, s));
    }
  }

  class Session {
    var committed: Db
    var db: Db

    constructor (db: Db)
      ensures committed == this.db == db
    {
      this.committed, this.db := db, db;
    }

    method Commit()
      modifies this
      ensures committed == db == old(db)
    {
      committed := db;
    }

    method Rollback()
      modifies this
      ensures committed == db == old(committed)
    {
      db := committed;
    }

    /** Leave the scope: commit, or undo everything after an exception. */
    method Close(ok: bool)
      modifies this
      ensures committed == db == if ok then old(db) else old(committed)
    {
      if ok {
        Commit();
      } else {
        Rollback();
      }
    }

    method RecordPost(p: Post) returns (ok: bool)
      modifies this`db
      ensures ok <==> AddPost(old(db), p).Some?
      ensures db == Committed(old(db), AddPost(old(db), p))
      ensures ok <==>
                && p.id !in old(db).tables.posts
                && (forall q <- old(db).tables.posts.Values :: q.url != p.url)
                && (p.externalId.Some? ==>
                      forall q <- old(db).tables.posts.Values ::
                        !(q.platform == p.platform && q.externalId == p.externalId))
      ensures ok ==>
                && db.tables == old(db).tables.(posts := old(db).tables.posts[p.id := p])
                && db.log == old(db).log + [PostCreated(p)]
      ensures !ok ==> db == old(db)
    {
      var r := AddPost(db, p);
      ok := r.Some?;
      db := r.GetOr(db);
    }

    method RecordMention(m: Mention) returns (ok: bool)
      modifies this`db
      ensures ok <==> AddMention(old(db), m).Some?
      ensures db == Committed(old(db), AddMention(old(db), m))
      ensures ok <==> m.id !in old(db).tables.mentions && forall q <- old(db).tables.mentions.Values :: q.url != m.url
      ensures ok ==>
                && db.tables == old(db).tables.(mentions := old(db).tables.mentions[m.id := m])
                && db.log == old(db).log + [MentionCreated(m)]
      ensures !ok ==> db == old(db)
    {
      var r := AddMention(db, m);
      ok := r.Some?;
      db := r.GetOr(db);
    }

    method RecordArtifact(how: ArtifactEvent, a: Artifact) returns (ok: bool)
      modifies this`db
      ensures ok <==> AddArtifact(old(db), how, a).Some?
      ensures db == Committed(old(db), AddArtifact(old(db), how, a))
      ensures ok <==> a.id !in old(db).tables.artifacts
      ensures ok ==>
                && db.tables == old(db).tables.(artifacts := old(db).tables.artifacts[a.id := a])
                && db.log == old(db).log + [ArtifactLogged(how, a)]
      ensures !ok ==> db == old(db)
    {
      var r := AddArtifact(db, how, a);
      ok := r.Some?;
      db := r.GetOr(db);
    }

    method RecordSnapshot(what: SnapshotEvent, s: Snapshot) returns (ok: bool)
      modifies this`db
      ensures ok <==> AddSnapshot(old(db), what, s).Some?
      ensures db == Committed(old(db), AddSnapshot(old(db), what, s))
      ensures ok <==> s.id !in old(db).tables.snapshots
      ensures ok ==>
                && db.tables == old(db).tables.(snapshots := old(db).tables.snapshots[s.id := s])
                && db.log == old(db).log + [SnapshotLogged(what, s)]
      ensures !ok ==> db == old(db)
    {
      var r := AddSnapshot(db, what, s);
      ok := r.Some?;
      db := r.GetOr(db);
    }

    /** Write a changed row and append its event. */
    method Update(tables: Tables, e: Event)
      modifies this`db
      ensures db == Log(old(db), tables, e)
    {
      db := Log(db, tables, e);
    }
  }
}
