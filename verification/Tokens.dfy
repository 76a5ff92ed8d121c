/**
 Timestamp tokens over whole runs: each is recorded about the head of the log as it
 was, and every one of them still matches the log after whatever else was recorded.
 */
module Tokens {
  import opened Json
  import opened Wrappers
  import opened Clock
  import opened HashChain
  import opened Commitment
  import opened Timestamps
  import opened Database
  import opened CapturePipeline
  import opened SealedRecord
  import opened Transactions
  import opened Frames
  import Store
  import Crawler

  function Field(members: seq<Member>, key: string): Option<Json> {
    if members == [] then None else if members[0].key == key then Some(members[0].value) else Field(members[1..], key)
  }

  /** The number and the digest that a token's metadata names. */
  function TokenOf(meta: Dict): Option<Stamp> {
    match (Field(meta.members, "stamped_seq"), Field(meta.members, "digest_sha256"))
    case (Some(Num(q)), Some(Str(digest))) => Some(Stamp(q, digest))
    case _ => None
  }

  lemma {:induction false} FieldExact(members: seq<Member>, key: string, v: Json)
    requires DistinctKeys(members)
    ensures Field(members, key) == Some(v) <==> Member(key, v) in members
  {
    if members != [] {
      var rest := members[1..];
      FieldExact(rest, key, v);
      assert members == [members[0]] + rest;
      assert forall i :: 0 <= i < |rest| ==> rest[i] == members[i + 1] && rest[i].key != members[0].key;
    }
  }

  /** A token is read from the metadata's two members and from nothing else. */
  lemma TokenExact(meta: Dict, q: int, digest: string)
    ensures TokenOf(meta) == Some(Stamp(q, digest))
            <==> Member("stamped_seq", Num(q)) in meta.members && Member("digest_sha256", Str(digest)) in meta.members
  {
    hide Field;
    assert DistinctKeys(meta.members);
    FieldExact(meta.members, "stamped_seq", Num(q));
    FieldExact(meta.members, "digest_sha256", Str(digest));
    var seqNo, hash := Field(meta.members, "stamped_seq"), Field(meta.members, "digest_sha256");
    if seqNo.Some? {
      FieldExact(meta.members, "stamped_seq", seqNo.value);
    }
    if hash.Some? {
      FieldExact(meta.members, "digest_sha256", hash.value);
    }
  }

  /** The metadata is that of a token issued for the head of the chain as it once was. */
  ghost predicate Issued(H: Hash, chain: seq<Entry>, meta: Dict) {
    exists n :: 0 < n <= |chain| && TokenOf(meta) == HeadStamp(H, chain[..n])
  }

  lemma IssuedLater(H: Hash, a: seq<Entry>, b: seq<Entry>, meta: Dict)
    requires Issued(H, a, meta) && |a| <= |b| && b[..|a|] == a
    ensures Issued(H, b, meta)
  {
    hide TokenOf, HeadStamp;
    var n :| 0 < n <= |a| && TokenOf(meta) == HeadStamp(H, a[..n]);
    assert b[..n] == a[..n];
  }

  // ----- Runs -----

  /** Every stamping transaction of the run that commits records a token for the head of the log as it was. */
  ghost predicate Anchors(H: Hash, sha: Store.Digest, norm: Crawler.UrlNorm, moves: seq<Move>, times: seq<Time>) {
    && |times| == |Run(sha, norm, moves).db.log|
    && (moves != [] ==>
          var before, m := moves[..|moves| - 1], moves[|moves| - 1];
          var log := Run(sha, norm, before).db.log;
          && |log| <= |times| && Anchors(H, sha, norm, before, times[..|log|])
          && (m.txn.Stamped? && m.commits && log != [] ==>
                Issued(H, Chain(H, log, times[..|log|]), m.txn.blob.meta)))
  }

  /** Every token of the tables was issued for some head of this chain. */
  ghost predicate AllIssued(H: Hash, chain: seq<Entry>, t: Tables) {
    forall id <- t.artifacts :: t.artifacts[id].kind == "timestamp" ==> Issued(H, chain, t.artifacts[id].captureMeta)
  }

  lemma TokenSource(t: Tables, u: Tables, x: Txn, id: string)
    requires TokensFrom(t, u, x) && id in u.artifacts && u.artifacts[id].kind == "timestamp"
    ensures || (id in t.artifacts && u.artifacts[id] == t.artifacts[id])
            || (x.Stamped? && u.artifacts[id].captureMeta == x.blob.meta)
  {
  }

  lemma StepIssued(H: Hash, sha: Store.Digest, norm: Crawler.UrlNorm, r: Record, m: Move, a: seq<Entry>, b: seq<Entry>)
    requires RowsKeyed(r.db.tables) && AllIssued(H, a, r.db.tables) && |a| <= |b| && b[..|a|] == a
    requires m.txn.Stamped? && m.commits && r.db.log != [] ==> Issued(H, a, m.txn.blob.meta)
    ensures AllIssued(H, b, Step(sha, norm, r, m).db.tables)
  {
    hide Exec, Issued, TokensFrom;
    var t, u := r.db.tables, Step(sha, norm, r, m).db.tables;
    SameTokens(t, t, m.txn);
    if m.commits && Exec(sha, norm, r, m.txn).Some? {
      ExecTokens(sha, norm, r, m.txn);
    }
    forall id | id in u.artifacts && u.artifacts[id].kind == "timestamp"
      ensures Issued(H, b, u.artifacts[id].captureMeta)
    {
      if u != t {
        TokenSource(t, u, m.txn, id);
      }
      IssuedLater(H, a, b, u.artifacts[id].captureMeta);
    }
  }

  lemma LogGrows(sha: Store.Digest, norm: Crawler.UrlNorm, r: Record, m: Move)
    ensures var log := Step(sha, norm, r, m).db.log; |r.db.log| <= |log| && log[..|r.db.log|] == r.db.log
  {
    hide Exec, Logs;
    if m.commits && Exec(sha, norm, r, m.txn).Some? {
      ExecLog(sha, norm, r, m.txn);
    }
  }

  lemma NothingIssued(H: Hash, chain: seq<Entry>)
    ensures AllIssued(H, chain, EMPTY.tables)
  {
  }

  lemma FaithfulKeyed(db: Db)
    requires Faithful(db)
    ensures RowsKeyed(db.tables)
  {
  }

  lemma {:induction false} AnchoredRun(H: Hash, sha: Store.Digest, norm: Crawler.UrlNorm, moves: seq<Move>,
                                       times: seq<Time>)
    requires Anchors(H, sha, norm, moves, times)
    ensures AllIssued(H, Chain(H, Run(sha, norm, moves).db.log, times), Run(sha, norm, moves).db.tables)
  {
    hide Step, AllIssued, Issued, Faithful, Chain;
    if moves == [] {
      NothingIssued(H, Chain(H, Run(sha, norm, moves).db.log, times));
    } else {
      var before, m := moves[..|moves| - 1], moves[|moves| - 1];
      var r, log := Run(sha, norm, before), Run(sha, norm, moves).db.log;
      var k := |r.db.log|;
      AnchoredRun(H, sha, norm, before, times[..k]);
      LogReplays(sha, norm, before);
      FaithfulKeyed(r.db);
      LogGrows(sha, norm, r, m);
      ChainPrefix(H, log, times, k);
      ChainPrefix(H, r.db.log, times[..k], k);
      StepIssued(H, sha, norm, r, m, Chain(H, r.db.log, times[..k]), Chain(H, log, times));
    }
  }

  lemma IssuedHolds(H: Hash, chain: seq<Entry>, meta: Dict)
    requires Linked(Hasher(H), chain) && Issued(H, chain, meta)
    ensures TokenOf(meta).Some? && StampHolds(H, chain, TokenOf(meta).value)
  {
    hide TokenOf, StampHolds, Linked;
    var n :| 0 < n <= |chain| && TokenOf(meta) == HeadStamp(H, chain[..n]);
    LinkedKeyed(Hasher(H), chain);
    StampSurvives(H, chain[..n], chain);
  }

  /**
   After any run in which stamping anchors heads of the log, with every other
   transaction, crash and rollback between: every token of the record names an entry of
   the chain and carries the digest of its number and hash, so checking the tokens finds
   nothing.
   */
  lemma TokensPass(H: Hash, sha: Store.Digest, norm: Crawler.UrlNorm, moves: seq<Move>, times: seq<Time>, id: string)
    requires Anchors(H, sha, norm, moves, times)
    requires var t := Run(sha, norm, moves).db.tables; id in t.artifacts && t.artifacts[id].kind == "timestamp"
    ensures var db := Run(sha, norm, moves).db;
      var token := TokenOf(db.tables.artifacts[id].captureMeta);
      token.Some? && StampHolds(H, Chain(H, db.log, times), token.value)
  {
    hide Run, Chain, Linked, Issued, TokenOf, StampHolds;
    AnchoredRun(H, sha, norm, moves, times);
    var db := Run(sha, norm, moves).db;
    ChainLinked(H, db.log, times);
    IssuedHolds(H, Chain(H, db.log, times), db.tables.artifacts[id].captureMeta);
  }
}
