/**
 What the hash is computed from, and what the hash of the chain head commits to.

 `H` stands for SHA-256 with a hexadecimal result. Nothing is assumed of it: where a
 result leans on it, the alternative names two rows of the tables at hand whose
 materials differ and hash alike, or a row that hashes to GENESIS.
 */
module Commitment {
  import opened Json
  import opened HashChain

  type Hash = string -> string

  function Material(c: Content): string {
    c.prevHash + (c.occurredAt + (c.eventType + CanonicalJson(c.payload)))
  }

  /** compute_entry_hash with the hash H. */
  function Hasher(H: Hash): EntryHash {
    (c: Content) => H(Material(c))
  }

  // ----- Unique decoding of the material -----

  /** What `append` writes: a hex digest, a `now_iso` stamp, a plain event name, a dict. */
  predicate WellFormed(c: Content) {
    && |c.prevHash| == 64
    && |c.occurredAt| == 32
    && '{' !in c.eventType
    && c.payload.Obj? && IsDict(c.payload)
  }

  /** Equal in everything the hash covers. */
  predicate SameContent(c: Content, d: Content) {
    && c.prevHash == d.prevHash
    && c.occurredAt == d.occurredAt
    && c.eventType == d.eventType
    && Same(c.payload, d.payload)
  }

  lemma ConcatUnique(x: string, y: string, r: string, s: string)
    requires |x| == |y| && x + r == y + s
    ensures x == y && r == s
  {
    assert x == (x + r)[..|x|] && y == (y + s)[..|x|];
    assert r == (x + r)[|x|..] && s == (y + s)[|x|..];
  }

  /** The event type ends where the payload's first brace stands. */
  lemma {:induction false} TypeUnique(x: string, y: string, r: string, s: string)
    requires '{' !in x && '{' !in y && r != "" && s != "" && r[0] == s[0] == '{'
    requires x + r == y + s
    ensures x == y && r == s
  {
    assert x != "" ==> (x + r)[0] == x[0] && x[0] in x;
    assert y != "" ==> (y + s)[0] == y[0] && y[0] in y;
    assert x == "" ==> x + r == r;
    assert y == "" ==> y + s == s;
    if x != "" {
      assert (x + r)[1..] == x[1..] + r && (y + s)[1..] == y[1..] + s;
      TypeUnique(x[1..], y[1..], r, s);
      assert x == [x[0]] + x[1..] && y == [y[0]] + y[1..];
    }
  }

  /** The undelimited concatenation loses nothing of a well-formed entry. */
  lemma MaterialUnique(c: Content, d: Content)
    requires WellFormed(c) && WellFormed(d)
    ensures Material(c) == Material(d) <==> SameContent(c, d)
  {
    CanonicalJsonExact(c.payload, d.payload);
    if Material(c) == Material(d) {
      var x, y := CanonicalJson(c.payload), CanonicalJson(d.payload);
      ConcatUnique(c.prevHash, d.prevHash, c.occurredAt + (c.eventType + x), d.occurredAt + (d.eventType + y));
      ConcatUnique(c.occurredAt, d.occurredAt, c.eventType + x, d.eventType + y);
      assert x[0] == '{' && y[0] == '{';
      TypeUnique(c.eventType, d.eventType, x, y);
    }
  }

  lemma BraceFirst(v: Json)
    requires v.Obj?
    ensures CanonicalJson(v) != "" && CanonicalJson(v)[0] == '{'
  {
  }

  /** Where the four parts stand in the material: 64 characters, 32, up to the first brace, and the rest. */
  lemma MaterialParts(c: Content)
    requires WellFormed(c)
    ensures var m, n := Material(c), 96 + |c.eventType|;
      && |m| == n + |CanonicalJson(c.payload)| && m[..64] == c.prevHash && m[64..96] == c.occurredAt
      && m[96..n] == c.eventType && m[n..] == CanonicalJson(c.payload)
      && m[n] == '{' && '{' !in m[96..n]
  {
    hide CanonicalJson;
    var m, json := Material(c), CanonicalJson(c.payload);
    assert json != "" && json[0] == '{' by {
      PrintHead(Norm(c.payload), "");
      BraceFirst(c.payload);
    }
    assert m == c.prevHash + c.occurredAt + c.eventType + json;
  }

  // ----- Commitment -----

  /** Two rows of the tables have different materials and one hash. */
  ghost predicate Collision(H: Hash, a: seq<Entry>, b: seq<Entry>) {
    exists e, f :: e in a && f in b && Material(e.content) != Material(f.content)
      && H(Material(e.content)) == H(Material(f.content))
  }

  /** A row of the table hashes to the value that starts a chain. */
  ghost predicate ReachesGenesis(H: Hash, t: seq<Entry>) {
    exists e :: e in t && H(Material(e.content)) == GENESIS
  }

  ghost predicate HashBroken(H: Hash, a: seq<Entry>, b: seq<Entry>) {
    Collision(H, a, b) || ReachesGenesis(H, a) || ReachesGenesis(H, b)
  }

  predicate SameHistory(a: seq<Entry>, b: seq<Entry>) {
    && |a| == |b|
    && forall i :: 0 <= i < |a| ==> SameContent(a[i].content, b[i].content) && a[i].entryHash == b[i].entryHash
  }

  predicate AllWellFormed(t: seq<Entry>) {
    forall e <- t :: WellFormed(e.content)
  }

  lemma HashBrokenPrefix(H: Hash, a: seq<Entry>, b: seq<Entry>, m: nat, n: nat)
    requires m <= |a| && n <= |b| && HashBroken(H, a[..m], b[..n])
    ensures HashBroken(H, a, b)
  {
    assert forall e :: e in a[..m] ==> e in a;
    assert forall e :: e in b[..n] ==> e in b;
  }

  lemma SameHistoryExtend(a: seq<Entry>, b: seq<Entry>)
    requires a != [] && b != []
    requires SameHistory(a[..|a| - 1], b[..|b| - 1])
    requires SameContent(a[|a| - 1].content, b[|b| - 1].content) && a[|a| - 1].entryHash == b[|b| - 1].entryHash
    ensures SameHistory(a, b)
  {
    forall i | 0 <= i < |a| - 1
      ensures SameContent(a[i].content, b[i].content) && a[i].entryHash == b[i].entryHash
    {
      assert a[..|a| - 1][i] == a[i] && b[..|b| - 1][i] == b[i];
    }
  }

  lemma {:induction false} LinkedCommitment(H: Hash, a: seq<Entry>, b: seq<Entry>)
    requires Linked(Hasher(H), a) && Linked(Hasher(H), b) && AllWellFormed(a) && AllWellFormed(b)
    requires HeadHash(a) == HeadHash(b)
    ensures SameHistory(a, b) || HashBroken(H, a, b)
    decreases |a|
  {
    var m, n := |a| - 1, |b| - 1;
    if a != [] {
      LinkedAt(Hasher(H), a, m);
    }
    if b != [] {
      LinkedAt(Hasher(H), b, n);
    }
    if a != [] && b != [] {
      if Material(a[m].content) != Material(b[n].content) {
        assert Collision(H, a, b);
      } else {
        MaterialUnique(a[m].content, b[n].content);
        LinkedPrefix(Hasher(H), a, m);
        LinkedPrefix(Hasher(H), b, n);
        assert HeadHash(a[..m]) == a[m].content.prevHash && HeadHash(b[..n]) == b[n].content.prevHash;
        LinkedCommitment(H, a[..m], b[..n]);
        if SameHistory(a[..m], b[..n]) {
          SameHistoryExtend(a, b);
        } else {
          HashBrokenPrefix(H, a, b, m, n);
        }
      }
    }
  }

  /** The head hash fixes the whole history, unless the tables exhibit a broken hash. */
  lemma HeadCommits(H: Hash, a: seq<Entry>, b: seq<Entry>)
    requires Verify(Hasher(H), a).Valid? && Verify(Hasher(H), b).Valid?
    requires AllWellFormed(a) && AllWellFormed(b)
    requires HeadHash(a) == HeadHash(b)
    ensures SameHistory(a, b) || HashBroken(H, a, b)
  {
    VerifyExact(Hasher(H), a);
    VerifyExact(Hasher(H), b);
    LinkedCommitment(H, a, b);
  }
}
